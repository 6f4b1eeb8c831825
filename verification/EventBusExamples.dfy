/** Runs of the event bus in which an event comes twice, and in which two loops mix up the order. */
module EventBusExamples {
  import opened Common
  import opened EventBusLifetime
  import opened EventBusModel
  import opened EventBusOrder
  import opened EventBusSafety

  lemma ReachableStep(s: State, a: Action)
    requires Reachable(0, s)
    ensures Reachable(0, Step(0, s, a))
  {
    var actions :| Run(0, actions) == s;
    OneStepMore(0, INITIAL, actions, a);
    assert Run(0, actions + [a]) == Step(0, s, a);
  }

  lemma StartIsReachable()
    ensures Reachable(0, INITIAL)
  {
    assert Run(0, []) == INITIAL;
  }

  const STAR_EVENT := Event("*", 0)
  const STAR_SUB := Subscription(0, "*")

  lemma StarIsPublished()
    ensures Reachable(0, INITIAL.(queue := [Publication(STAR_EVENT)], subscriptions := [STAR_SUB], unfinished := 1,
                                  nextId := 1, accepted := [STAR_EVENT]))
  {
    var s1 := INITIAL.(subscriptions := [STAR_SUB], nextId := 1);
    var s2 := s1.(queue := [Publication(STAR_EVENT)], unfinished := 1, accepted := [STAR_EVENT]);
    assert " *"[1..] == "*" && Strip("*") == "*" && Strip(" *") == "*";
    assert Step(0, INITIAL, Subscribe("*")) == s1;
    assert Step(0, s1, Publish(" *")) == s2;
    StartIsReachable();
    ReachableStep(INITIAL, Subscribe("*"));
    ReachableStep(s1, Publish(" *"));
  }

  /** Before the first start an idle wait returns although an event is queued. */
  lemma IdleWaitMayLeaveEvents()
    ensures exists s :: Reachable(0, s) && IdleWaitReturns(s) && s.task.None? && s.queue != [] && !Quiescent(s)
  {
    StarIsPublished();
  }

  /** One wildcard subscriber and one event published under a padded wildcard: it is delivered twice. */
  lemma StarIsDeliveredTwice()
    ensures exists s :: Reachable(0, s) && s.subscriptions == [STAR_SUB] && s.accepted == [STAR_EVENT]
                        && s.delivered == [Delivery(0, STAR_EVENT), Delivery(0, STAR_EVENT)]
  {
    StarIsPublished();
    var s2 := INITIAL.(queue := [Publication(STAR_EVENT)], subscriptions := [STAR_SUB], unfinished := 1, nextId := 1,
                       accepted := [STAR_EVENT]);
    var s3 := s2.(loops := [Waiting], task := Some(0));
    var both := [STAR_SUB, STAR_SUB];
    var s4 := s3.(queue := [], loops := [Dispatching(STAR_EVENT, both)], taken := [Plan(STAR_EVENT, both)]);
    var s5 := s4.(loops := [Dispatching(STAR_EVENT, both[1..])], delivered := [Delivery(0, STAR_EVENT)]);
    var s6 := s5.(loops := [Dispatching(STAR_EVENT, [])],
                  delivered := [Delivery(0, STAR_EVENT), Delivery(0, STAR_EVENT)]);
    assert [STAR_SUB][1..] == [] && both[1..] == [STAR_SUB];
    assert Filtered([STAR_SUB], "*") == [STAR_SUB] + [] == [STAR_SUB];
    assert Matching([STAR_SUB], "*") == both;
    assert Step(0, s2, StartLoop) == s3;
    assert Step(0, s3, Get(0)) == s4;
    assert Step(0, s4, Invoke(0)) == s5;
    assert Step(0, s5, Invoke(0)) == s6;
    ReachableStep(s2, StartLoop);
    ReachableStep(s3, Get(0));
    ReachableStep(s4, Invoke(0));
    ReachableStep(s5, Invoke(0));
  }

  /** Two stops at once have left a sentinel behind. */
  const LEFTOVER := INITIAL.(queue := [StopSentinel], loops := [Ended], stoppers := [Gone, Gone], unfinished := 1)

  lemma TwoStopsAreUnderWay()
    ensures Reachable(0, INITIAL.(loops := [Waiting], task := Some(0), stoppers := [Released, Released]))
  {
    var s1 := INITIAL.(loops := [Waiting], task := Some(0));
    var s2 := s1.(stoppers := [AwaitingIdle]);
    var s3 := s1.(stoppers := [AwaitingIdle, AwaitingIdle]);
    var s4 := s1.(stoppers := [Released, AwaitingIdle]);
    assert Step(0, INITIAL, StartLoop) == s1;
    assert Step(0, s1, CallStop) == s2;
    assert Step(0, s2, CallStop) == s3;
    assert Step(0, s3, IdleReached(0)) == s4;
    assert Step(0, s4, IdleReached(1)) == s1.(stoppers := [Released, Released]);
    StartIsReachable();
    ReachableStep(INITIAL, StartLoop);
    ReachableStep(s1, CallStop);
    ReachableStep(s2, CallStop);
    ReachableStep(s3, IdleReached(0));
    ReachableStep(s4, IdleReached(1));
  }

  lemma LeftoverIsReachable()
    ensures Reachable(0, LEFTOVER)
  {
    var s1 := INITIAL.(loops := [Waiting], task := Some(0), stoppers := [Released, Released]);
    var s2 := s1.(stoppers := [AwaitingLoop(0), Released], queue := [StopSentinel], unfinished := 1);
    var s3 := s1.(stoppers := [AwaitingLoop(0), AwaitingLoop(0)], queue := [StopSentinel, StopSentinel],
                  unfinished := 2);
    var s4 := s3.(queue := [StopSentinel], loops := [Stopping]);
    var s5 := s4.(loops := [Ended], unfinished := 1);
    var s6 := s5.(stoppers := [Gone, AwaitingLoop(0)], task := None);
    assert Step(0, s1, PutSentinel(0)) == s2;
    assert Step(0, s2, PutSentinel(1)) == s3;
    assert Step(0, s3, Get(0)) == s4;
    assert Step(0, s4, TaskDone(0)) == s5;
    assert Step(0, s5, FinishStop(0)) == s6;
    assert Step(0, s6, FinishStop(1)) == LEFTOVER;
    TwoStopsAreUnderWay();
    ReachableStep(s1, PutSentinel(0));
    ReachableStep(s2, PutSentinel(1));
    ReachableStep(s3, Get(0));
    ReachableStep(s4, TaskDone(0));
    ReachableStep(s5, FinishStop(0));
    ReachableStep(s6, FinishStop(1));
  }

  /** The next loop started can then end although both stops have long returned. */
  lemma StartedLoopMayEndAtOnce()
    ensures Reachable(0, LEFTOVER) && !TaskAlive(LEFTOVER)
    ensures !StaysAlive(0, Step(0, LEFTOVER, StartLoop), 1)
  {
    LeftoverIsReachable();
    var started := Step(0, LEFTOVER, StartLoop);
    assert started.queue[0] == StopSentinel;
    WaitingLoopStaysAliveExactly(0, started, 1);
  }

  /** A stop has ended its loop and not yet resumed. */
  const STOPPING := INITIAL.(loops := [Ended], task := Some(0), stoppers := [AwaitingLoop(0)])

  lemma StoppingIsReachable()
    ensures Reachable(0, STOPPING)
  {
    var s1 := INITIAL.(loops := [Waiting], task := Some(0));
    var s2 := s1.(stoppers := [AwaitingIdle]);
    var s3 := s1.(stoppers := [Released]);
    var s4 := s1.(stoppers := [AwaitingLoop(0)], queue := [StopSentinel], unfinished := 1);
    var s5 := s4.(queue := [], loops := [Stopping]);
    assert Step(0, INITIAL, StartLoop) == s1;
    assert Step(0, s1, CallStop) == s2;
    assert Step(0, s2, IdleReached(0)) == s3;
    assert Step(0, s3, PutSentinel(0)) == s4;
    assert Step(0, s4, Get(0)) == s5;
    assert Step(0, s5, TaskDone(0)) == STOPPING;
    StartIsReachable();
    ReachableStep(INITIAL, StartLoop);
    ReachableStep(s1, CallStop);
    ReachableStep(s2, IdleReached(0));
    ReachableStep(s3, PutSentinel(0));
    ReachableStep(s4, Get(0));
    ReachableStep(s5, TaskDone(0));
  }

  /** A start in that moment, the reset, another start: two loops wait on the same queue. */
  const TWO_LOOPS := INITIAL.(loops := [Ended, Waiting, Waiting], task := Some(2), stoppers := [Gone])

  lemma TwoLoopsAreReachable()
    ensures Reachable(0, TWO_LOOPS)
  {
    var s1 := STOPPING.(loops := [Ended, Waiting], task := Some(1));
    var s2 := s1.(stoppers := [Gone], task := None);
    assert Hasty(0, STOPPING, StartLoop) by {
      assert STOPPING.stoppers[0].AwaitingLoop?;
    }
    assert Step(0, STOPPING, StartLoop) == s1;
    assert Step(0, s1, FinishStop(0)) == s2;
    assert Step(0, s2, StartLoop) == TWO_LOOPS;
    StoppingIsReachable();
    ReachableStep(STOPPING, StartLoop);
    ReachableStep(s1, FinishStop(0));
    ReachableStep(s2, StartLoop);
  }

  const SUB := Subscription(0, "a")

  /** So the order can be lost: a state is reachable in which the second event has been delivered before the first. */
  lemma TwoLoopsDeliverOutOfOrder()
    ensures exists s :: Reachable(0, s) && !InOrder(s)
  {
    var ready := TWO_LOOPS.(subscriptions := [SUB], nextId := 1);
    assert Strip("a") == "a";
    assert Matching([SUB], "a")[0] == SUB;
    assert Step(0, TWO_LOOPS, Subscribe("a")) == ready;
    TwoLoopsAreReachable();
    ReachableStep(TWO_LOOPS, Subscribe("a"));
    ReachableTaken(ready, 1);
    ReachableTaken(Took(ready, 1), 2);
    ReachableStep(Took(Took(ready, 1), 2), Invoke(2));
    OvertakenIsOutOfOrder(0, ready, 1, 2);
  }

  lemma ReachableTaken(s: State, k: nat)
    requires Reachable(0, s) && k < |s.loops| && s.loops[k].Waiting? && s.queue == []
    ensures Reachable(0, Took(s, k))
  {
    ReachableStep(s, Publish("a"));
    ReachableStep(Step(0, s, Publish("a")), Get(k));
    PublishedAndTaken(0, s, k);
  }
}
