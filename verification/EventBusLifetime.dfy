/** How long a dispatch loop lives: each sentinel a stop puts into the queue ends one loop, whichever takes it. */
module EventBusLifetime {
  import opened Common
  import opened EventBusModel
  import opened EventBusSafety

  /** No stop gets past its wait for idle. */
  ghost predicate PutsNothing(more: seq<Action>) {
    forall a :: a in more ==> !a.PutSentinel?
  }

  ghost predicate StaysAlive(capacity: nat, s: State, k: nat) {
    forall more :: PutsNothing(more) ==>
      k < |RunFrom(capacity, s, more).loops| && !RunFrom(capacity, s, more).loops[k].Ended?
  }

  // ---------- no sentinel ----------

  /** The loop is at work and there is no sentinel for it to take. */
  predicate Unthreatened(s: State, k: nat) {
    && k < |s.loops| && (s.loops[k].Waiting? || s.loops[k].Dispatching?)
    && StopSentinel !in s.queue
  }

  lemma {:induction false} UnthreatenedStays(capacity: nat, s: State, more: seq<Action>, k: nat)
    requires Unthreatened(s, k) && PutsNothing(more)
    ensures Unthreatened(RunFrom(capacity, s, more), k)
  {
    if more != [] {
      var before := more[..|more| - 1];
      assert more[|more| - 1] in more && forall a :: a in before ==> a in more;
      UnthreatenedStays(capacity, s, before, k);
    }
  }

  // ---------- a sentinel ----------

  /** A later state of some continuation in which no stop puts a sentinel. */
  ghost predicate LeadsTo(capacity: nat, s: State, later: State) {
    exists more :: PutsNothing(more) && RunFrom(capacity, s, more) == later
  }

  lemma LeadsFurther(capacity: nat, s: State, mid: State, a: Action)
    requires LeadsTo(capacity, s, mid) && !a.PutSentinel?
    ensures LeadsTo(capacity, s, Step(capacity, mid, a))
  {
    var more :| PutsNothing(more) && RunFrom(capacity, s, more) == mid;
    OneStepMore(capacity, s, more, a);
    assert PutsNothing(more + [a]);
  }

  lemma {:induction false} CallbacksServed(capacity: nat, s: State, mid: State, k: nat) returns (later: State)
    requires LeadsTo(capacity, s, mid) && k < |mid.loops| && mid.loops[k].Dispatching?
    ensures LeadsTo(capacity, s, later)
    ensures k < |later.loops| && later.loops[k].Waiting? && later.queue == mid.queue
    decreases |mid.loops[k].rest|
  {
    if mid.loops[k].rest == [] {
      LeadsFurther(capacity, s, mid, TaskDone(k));
      later := Step(capacity, mid, TaskDone(k));
    } else {
      LeadsFurther(capacity, s, mid, Invoke(k));
      later := CallbacksServed(capacity, s, Step(capacity, mid, Invoke(k)), k);
    }
  }

  /** The loop takes everything up to the first sentinel and returns on it. */
  lemma {:induction false} ServedUntilSentinel(capacity: nat, s: State, mid: State, k: nat) returns (later: State)
    requires LeadsTo(capacity, s, mid) && k < |mid.loops| && mid.loops[k].Waiting? && StopSentinel in mid.queue
    ensures LeadsTo(capacity, s, later) && k < |later.loops| && later.loops[k].Ended?
    decreases |mid.queue|
  {
    LeadsFurther(capacity, s, mid, Get(k));
    var got := Step(capacity, mid, Get(k));
    if mid.queue[0].StopSentinel? {
      LeadsFurther(capacity, s, got, TaskDone(k));
      later := Step(capacity, got, TaskDone(k));
    } else {
      later := CallbacksServed(capacity, s, got, k);
      later := ServedUntilSentinel(capacity, s, later, k);
    }
  }

  // ---------- the condition ----------

  function Sentinels(items: seq<Item>): nat {
    if items == [] then 0 else (if items[0].StopSentinel? then 1 else 0) + Sentinels(items[1..])
  }

  lemma {:induction false} SentinelsAppend(items: seq<Item>, x: Item)
    ensures Sentinels(items + [x]) == Sentinels(items) + (if x.StopSentinel? then 1 else 0)
  {
    if items == [] {
      assert [x][1..] == [];
    } else {
      SentinelsAppend(items[1..], x);
      assert (items + [x])[1..] == items[1..] + [x];
    }
  }

  lemma {:induction false} SentinelsFound(items: seq<Item>)
    ensures Sentinels(items) > 0 <==> StopSentinel in items
  {
    if items != [] {
      SentinelsFound(items[1..]);
      assert StopSentinel in items <==> items[0] == StopSentinel || StopSentinel in items[1..];
    }
  }

  /** A loop that has taken a sentinel. */
  function Ending(loop: Loop): nat {
    if loop.Stopping? || loop.Ended? then 1 else 0
  }

  function EndingCount(loops: seq<Loop>): nat {
    Sum(loops, Ending)
  }

  /** How many sentinels the stops of a run have put into the queue. */
  function Puts(capacity: nat, actions: seq<Action>): nat {
    if actions == [] then 0
    else
      var before, a := actions[..|actions| - 1], actions[|actions| - 1];
      Puts(capacity, before) + if a.PutSentinel? && Enabled(capacity, Run(capacity, before), a) then 1 else 0
  }

  lemma LoopGoesOn(loops: seq<Loop>, k: nat, loop: Loop)
    requires k < |loops| && Ending(loop) == Ending(loops[k])
    ensures EndingCount(loops[k := loop]) == EndingCount(loops)
  {
    SumChanges(loops, k, loop, Ending);
  }

  lemma StepCounts(capacity: nat, s: State, a: Action)
    ensures var later := Step(capacity, s, a);
            Sentinels(later.queue) + EndingCount(later.loops)
            == Sentinels(s.queue) + EndingCount(s.loops) + if a.PutSentinel? && Enabled(capacity, s, a) then 1 else 0
  {
    if Enabled(capacity, s, a) {
      match a
      case Publish(name) => SentinelsAppend(s.queue, Step(capacity, s, a).queue[|s.queue|]);
      case PutSentinel(_) => SentinelsAppend(s.queue, StopSentinel);
      case StartLoop => assert (s.loops + [Waiting])[..|s.loops|] == s.loops;
      case Get(k) => SumChanges(s.loops, k, TakeItem(s, k).loops[k], Ending);
      case Invoke(k) => LoopGoesOn(s.loops, k, Dispatching(s.loops[k].event, s.loops[k].rest[1..]));
      case TaskDone(k) => LoopGoesOn(s.loops, k, if s.loops[k].Stopping? then Ended else Waiting);
      case _ =>
    }
  }

  /** Every sentinel put is still queued or has ended a loop, and no loop ends otherwise. */
  lemma {:induction false} SentinelsAreConserved(capacity: nat, actions: seq<Action>)
    ensures var s := Run(capacity, actions);
            Puts(capacity, actions) == Sentinels(s.queue) + EndingCount(s.loops)
  {
    if actions != [] {
      var before := actions[..|actions| - 1];
      SentinelsAreConserved(capacity, before);
      StepCounts(capacity, Run(capacity, before), actions[|actions| - 1]);
    }
  }

  lemma WaitingLoopStaysAliveExactly(capacity: nat, s: State, k: nat)
    requires k < |s.loops| && s.loops[k].Waiting?
    ensures StaysAlive(capacity, s, k) <==> StopSentinel !in s.queue
  {
    if StopSentinel in s.queue {
      assert PutsNothing([]) && RunFrom(capacity, s, []) == s;
      var later := ServedUntilSentinel(capacity, s, s, k);
    } else {
      forall more | PutsNothing(more)
        ensures k < |RunFrom(capacity, s, more).loops| && !RunFrom(capacity, s, more).loops[k].Ended?
      {
        UnthreatenedStays(capacity, s, more, k);
      }
    }
  }

  /** A loop that a start creates stays alive, until another stop puts its sentinel, exactly if every sentinel put
      before has ended a loop already. */
  lemma StartedLoopStaysAliveExactly(capacity: nat, actions: seq<Action>)
    requires !TaskAlive(Run(capacity, actions))
    ensures var s := Run(capacity, actions);
            StaysAlive(capacity, Step(capacity, s, StartLoop), |s.loops|) <==>
            Puts(capacity, actions) == EndingCount(s.loops)
  {
    var s := Run(capacity, actions);
    SentinelsAreConserved(capacity, actions);
    SentinelsFound(s.queue);
    WaitingLoopStaysAliveExactly(capacity, Step(capacity, s, StartLoop), |s.loops|);
  }
}
