/** What a subscriber of the event bus receives. */
module EventBusSubscribers {
  import opened Common
  import opened EventBusModel
  import opened EventBusSafety

  /** The events delivered to one subscriber, in order. */
  function Received(ds: seq<Delivery>, id: nat): seq<Event> {
    if ds == [] then []
    else
      Received(ds[..|ds| - 1], id) + if ds[|ds| - 1].subscriber == id then [ds[|ds| - 1].event] else []
  }

  /** How many callbacks an event causes at one subscription. */
  function Copies(subscribed: string, published: string): nat {
    (if subscribed == published then 1 else 0) + (if subscribed == WILDCARD then 1 else 0)
  }

  function Repeat(e: Event, n: nat): seq<Event> {
    if n == 0 then [] else [e] + Repeat(e, n - 1)
  }

  /** What a subscription under a name should receive of some events. */
  function Expected(events: seq<Event>, name: string): seq<Event> {
    if events == [] then []
    else Expected(events[..|events| - 1], name) + Repeat(events[|events| - 1], Copies(name, events[|events| - 1].name))
  }

  lemma {:induction false} ReceivedConcat(a: seq<Delivery>, b: seq<Delivery>, id: nat)
    ensures Received(a + b, id) == Received(a, id) + Received(b, id)
  {
    if b == [] {
      assert a + b == a;
    } else {
      ReceivedConcat(a, b[..|b| - 1], id);
      assert (a + b)[..|a + b| - 1] == a + b[..|b| - 1];
    }
  }

  function Count(callbacks: seq<Subscription>, id: nat): nat {
    if callbacks == [] then 0 else (if callbacks[0].id == id then 1 else 0) + Count(callbacks[1..], id)
  }

  lemma {:induction false} CountConcat(a: seq<Subscription>, b: seq<Subscription>, id: nat)
    ensures Count(a + b, id) == Count(a, id) + Count(b, id)
  {
    if a == [] {
      assert a + b == b;
    } else {
      CountConcat(a[1..], b, id);
      assert (a + b)[1..] == a[1..] + b;
    }
  }

  lemma {:induction false} CountFiltered(subs: seq<Subscription>, name: string, sub: Subscription, bound: nat)
    requires IdsOk(subs, bound)
    ensures sub in subs ==> Count(Filtered(subs, name), sub.id) == if sub.name == name then 1 else 0
    ensures (forall x :: x in subs ==> x.id != sub.id) ==> Count(Filtered(subs, name), sub.id) == 0
  {
    if subs != [] {
      assert IdsOk(subs[1..], bound);
      CountFiltered(subs[1..], name, sub, bound);
      CountConcat(if subs[0].name == name then [subs[0]] else [], Filtered(subs[1..], name), sub.id);
      assert [subs[0]][1..] == [];
      if sub in subs && sub == subs[0] {
        assert forall x :: x in subs[1..] ==> x.id != sub.id;
      }
    }
  }

  lemma {:induction false} DeliveriesReceived(e: Event, callbacks: seq<Subscription>, id: nat)
    ensures Received(DeliveriesFor(e, callbacks), id) == Repeat(e, Count(callbacks, id))
  {
    if callbacks != [] {
      DeliveriesReceived(e, callbacks[1..], id);
      var first := [Delivery(callbacks[0].id, e)];
      ReceivedConcat(first, DeliveriesFor(e, callbacks[1..]), id);
      assert first[..0] == [];
    }
  }

  /** What the schedule of a state calls for at a subscriber. */
  function Inbox(s: State, id: nat): seq<Event> {
    Received(Schedule(s.taken), id)
  }

  /** One taken event reaches a present subscriber as often as it matches. */
  lemma TakenEventReaches(s: State, e: Event, sub: Subscription)
    requires IdsOk(s.subscriptions, s.nextId) && sub in s.subscriptions
    ensures var plan := Plan(e, Matching(s.subscriptions, e.name));
            Received(Schedule(s.taken + [plan]), sub.id) == Inbox(s, sub.id) + Repeat(e, Copies(sub.name, e.name))
  {
    var callbacks := Matching(s.subscriptions, e.name);
    TakenAppend(s.taken, Plan(e, callbacks));
    ReceivedConcat(Schedule(s.taken), DeliveriesFor(e, callbacks), sub.id);
    DeliveriesReceived(e, callbacks, sub.id);
    CountConcat(Filtered(s.subscriptions, e.name), Filtered(s.subscriptions, WILDCARD), sub.id);
    CountFiltered(s.subscriptions, e.name, sub, s.nextId);
    CountFiltered(s.subscriptions, WILDCARD, sub, s.nextId);
  }

  lemma InboxGrows(capacity: nat, s: State, a: Action, sub: Subscription)
    requires IdsOk(s.subscriptions, s.nextId) && sub in s.subscriptions && a != Unsubscribe(sub.id)
    ensures var s' := Step(capacity, s, a);
            && sub in s'.subscriptions
            && (s'.taken == s.taken
                || (|s'.taken| == |s.taken| + 1 && s'.taken == s.taken + [s'.taken[|s.taken|]]
                    && Inbox(s', sub.id) == Inbox(s, sub.id)
                                            + Repeat(s'.taken[|s.taken|].event,
                                                     Copies(sub.name, s'.taken[|s.taken|].event.name))))
  {
    if Enabled(capacity, s, a) {
      if a.Unsubscribe? {
        WithoutIdOk(s.subscriptions, a.id, s.nextId);
      } else if a.Get? && s.queue[0].Publication? {
        TakenEventReaches(s, s.queue[0].event, sub);
      }
    }
  }

  lemma ExpectedAppend(events: seq<Event>, e: Event, name: string)
    ensures Expected(events + [e], name) == Expected(events, name) + Repeat(e, Copies(name, e.name))
  {
    assert (events + [e])[..|events + [e]| - 1] == events;
  }

  /** From one state to a later one the schedule has grown, for a subscriber, by what matches of the events taken
      since. */
  ghost predicate ScheduledMatching(s: State, later: State, sub: Subscription) {
    && sub in later.subscriptions && |s.taken| <= |later.taken| && later.taken[..|s.taken|] == s.taken
    && Inbox(later, sub.id) == Inbox(s, sub.id) + Expected(EventsOf(later.taken[|s.taken|..]), sub.name)
  }

  lemma ScheduledOneMore(s: State, mid: State, later: State, sub: Subscription, p: Plan)
    requires ScheduledMatching(s, mid, sub) && sub in later.subscriptions && later.taken == mid.taken + [p]
    requires Inbox(later, sub.id) == Inbox(mid, sub.id) + Repeat(p.event, Copies(sub.name, p.event.name))
    ensures ScheduledMatching(s, later, sub)
  {
    var older := mid.taken[|s.taken|..];
    assert later.taken[|s.taken|..] == older + [p];
    assert later.taken[..|s.taken|] == mid.taken[..|s.taken|];
    ExpectedOneMore(older, p, sub.name);
    Associates(Inbox(s, sub.id), Expected(EventsOf(older), sub.name), Repeat(p.event, Copies(sub.name, p.event.name)));
  }

  lemma ExpectedOneMore(older: seq<Plan>, p: Plan, name: string)
    ensures Expected(EventsOf(older + [p]), name)
         == Expected(EventsOf(older), name) + Repeat(p.event, Copies(name, p.event.name))
  {
    TakenAppend(older, p);
    ExpectedAppend(EventsOf(older), p.event, name);
  }

  lemma ScheduledStep(capacity: nat, s: State, mid: State, a: Action, sub: Subscription)
    requires IdsOk(mid.subscriptions, mid.nextId) && ScheduledMatching(s, mid, sub) && a != Unsubscribe(sub.id)
    ensures ScheduledMatching(s, Step(capacity, mid, a), sub)
  {
    var later := Step(capacity, mid, a);
    InboxGrows(capacity, mid, a, sub);
    if later.taken != mid.taken {
      ScheduledOneMore(s, mid, later, sub, later.taken[|mid.taken|]);
    }
  }

  lemma ScheduledNothingYet(s: State, sub: Subscription)
    requires sub in s.subscriptions
    ensures ScheduledMatching(s, s, sub)
  {
    assert s.taken[|s.taken|..] == [];
    assert Inbox(s, sub.id) + [] == Inbox(s, sub.id);
  }

  /** The schedule calls a subscriber that stays, of the events taken since, for exactly those that match, in order. */
  lemma {:induction false} ScheduleMatches(capacity: nat, s: State, more: seq<Action>, sub: Subscription)
    requires Inv(s) && sub in s.subscriptions && Unsubscribe(sub.id) !in more
    ensures ScheduledMatching(s, RunFrom(capacity, s, more), sub)
  {
    if more == [] {
      ScheduledNothingYet(s, sub);
    } else {
      var before, a := more[..|more| - 1], more[|more| - 1];
      assert a in more && forall b :: b in before ==> b in more;
      ScheduleMatches(capacity, s, before, sub);
      RunFromKeeps(capacity, s, before);
      ScheduledStep(capacity, s, RunFrom(capacity, s, before), a, sub);
    }
  }

  /** The deliveries a state has made or its one loop still owes to a subscriber. */
  function MadeOrOwed(s: State, id: nat): seq<Event> {
    Received(s.delivered, id) + Received(OwedNow(s), id)
  }

  lemma SerialInbox(s: State, id: nat)
    requires Serial(s)
    ensures MadeOrOwed(s, id) == Inbox(s, id)
  {
    ReceivedConcat(s.delivered, OwedNow(s), id);
  }

  /** The events taken from one state to a later one. */
  function TakenSince(s: State, later: State): seq<Event>
    requires |s.taken| <= |later.taken|
  {
    EventsOf(later.taken[|s.taken|..])
  }

  /** In a run without a hasty start, a subscriber that stays receives of the events taken meanwhile exactly those that
      match, in order, short of what the one loop still owes it: once each, but twice for a wildcard subscription and an
      event named by the wildcard. */
  lemma SubscriberReceivesMatching(capacity: nat, actions: seq<Action>, more: seq<Action>, sub: Subscription)
    requires Unhurried(capacity, actions) && UnhurriedFrom(capacity, Run(capacity, actions), more)
    requires sub in Run(capacity, actions).subscriptions && Unsubscribe(sub.id) !in more
    ensures var s := Run(capacity, actions);
            var later := RunFrom(capacity, s, more);
            && |s.taken| <= |later.taken|
            && MadeOrOwed(later, sub.id) == MadeOrOwed(s, sub.id) + Expected(TakenSince(s, later), sub.name)
  {
    var s := Run(capacity, actions);
    RunFromKeeps(capacity, INITIAL, actions);
    ScheduleMatches(capacity, s, more, sub);
    UnhurriedRunKeepsSerial(capacity, INITIAL, actions);
    UnhurriedRunKeepsSerial(capacity, s, more);
    SerialInbox(s, sub.id);
    SerialInbox(RunFrom(capacity, s, more), sub.id);
  }

  /** How often a subscriber has been, or will yet be, called for an event. */
  function TimesMadeOrOwed(s: State, id: nat, e: Event): nat {
    Times(s.delivered, Delivery(id, e)) + OwedByAll(s.loops, Delivery(id, e))
  }

  lemma {:induction false} ReceivedTimes(ds: seq<Delivery>, id: nat, e: Event)
    ensures Times(ds, Delivery(id, e)) == multiset(Received(ds, id))[e]
  {
    if ds != [] {
      var before, last := ds[..|ds| - 1], ds[|ds| - 1];
      ReceivedTimes(before, id, e);
      assert ds == before + [last];
    }
  }

  /** In any run, also with two loops, a subscriber that stays is called, or will yet be, for each event taken meanwhile
      exactly as often as it matches; only the order may be lost. */
  lemma SubscriberIsCalledPerMatch(capacity: nat, actions: seq<Action>, more: seq<Action>, sub: Subscription, e: Event)
    requires sub in Run(capacity, actions).subscriptions && Unsubscribe(sub.id) !in more
    ensures var s := Run(capacity, actions);
            var later := RunFrom(capacity, s, more);
            && |s.taken| <= |later.taken|
            && TimesMadeOrOwed(later, sub.id, e)
               == TimesMadeOrOwed(s, sub.id, e) + multiset(Expected(TakenSince(s, later), sub.name))[e]
  {
    var s, d := Run(capacity, actions), Delivery(sub.id, e);
    var later := RunFrom(capacity, s, more);
    RunFromKeeps(capacity, INITIAL, actions);
    ScheduleMatches(capacity, s, more, sub);
    RunKeepsBalance(capacity, actions, d);
    RunFromComposes(capacity, INITIAL, actions, more);
    RunKeepsBalance(capacity, actions + more, d);
    ReceivedTimes(Schedule(s.taken), sub.id, e);
    ReceivedTimes(Schedule(later.taken), sub.id, e);
  }

  /** Once each, exactly unless a wildcard subscription meets an event whose stripped name is the wildcard. */
  lemma CopiesAreOneUnlessWildcardName(subscribed: string, published: string)
    ensures Copies(subscribed, published) <= 1 <==> !(subscribed == WILDCARD && published == WILDCARD)
    ensures published != WILDCARD ==>
              Copies(subscribed, published) == if subscribed == published || subscribed == WILDCARD then 1 else 0
  {
  }

  /** The events of a list that a subscription under a name is meant to get. */
  function Matched(events: seq<Event>, name: string): seq<Event> {
    if events == [] then []
    else
      var e := events[|events| - 1];
      Matched(events[..|events| - 1], name) + if e.name == name || name == WILDCARD then [e] else []
  }

  lemma {:induction false} ExpectedIsNoShorter(events: seq<Event>, name: string)
    ensures |Expected(events, name)| >= |Matched(events, name)|
    ensures name == WILDCARD && (exists e :: e in events && e.name == WILDCARD) ==>
              |Expected(events, name)| > |Matched(events, name)|
  {
    if events != [] {
      var before, e := events[..|events| - 1], events[|events| - 1];
      ExpectedIsNoShorter(before, name);
      assert forall x :: x in events ==> x == e || x in before;
      assert Repeat(e, 2) == [e] + Repeat(e, 1) && Repeat(e, 1) == [e] + [];
    }
  }

  lemma {:induction false} ExpectedIsMatched(events: seq<Event>, name: string)
    requires name != WILDCARD || forall e :: e in events ==> e.name != WILDCARD
    ensures Expected(events, name) == Matched(events, name)
  {
    if events != [] {
      var before, e := events[..|events| - 1], events[|events| - 1];
      assert e in events && forall x :: x in before ==> x in events;
      ExpectedIsMatched(before, name);
      assert Repeat(e, 1) == [e] + [] == [e];
    }
  }

  /** A subscription should get each matching event once, exactly unless it is one for all events and one of them is
      named by the wildcard. */
  lemma OnceEachExactly(events: seq<Event>, name: string)
    ensures Expected(events, name) == Matched(events, name) <==>
              name != WILDCARD || forall e :: e in events ==> e.name != WILDCARD
  {
    ExpectedIsNoShorter(events, name);
    if name != WILDCARD || forall e :: e in events ==> e.name != WILDCARD {
      ExpectedIsMatched(events, name);
    }
  }

  /** A name is published as the wildcard exactly if it is not the bare wildcard but becomes it when stripped. */
  lemma PublishedAsWildcardExactly(name: string)
    ensures Normalize(name, false) == Some(WILDCARD) <==> name != WILDCARD && Strip(name) == WILDCARD
  {
    assert Strip("*") == "*";
  }

  /** Publishing under the literal wildcard is refused, but a padded wildcard is accepted under that very name. */
  lemma PaddedWildcardIsPublished()
    ensures Normalize("*", false).None?
    ensures Normalize(" *", false) == Some(WILDCARD)
  {
    assert " *"[1..] == "*";
    assert Strip("*") == "*";
    assert Strip(" *") == "*";
  }

  lemma {:induction false} FilteredNames(subs: seq<Subscription>, name: string)
    ensures forall i :: 0 <= i < |Filtered(subs, name)| ==> Filtered(subs, name)[i].name == name
  {
    if subs != [] {
      FilteredNames(subs[1..], name);
    }
  }

  /** Exact matches are called before wildcards. */
  lemma ExactBeforeWildcard(subs: seq<Subscription>, name: string, i: nat, j: nat)
    requires name != WILDCARD && i < j < |Matching(subs, name)| && Matching(subs, name)[j].name == name
    ensures Matching(subs, name)[i].name == name
  {
    FilteredNames(subs, name);
    FilteredNames(subs, WILDCARD);
  }

  // ---------- after an unsubscription ----------

  /** No subscription has this id, and none will: the id has been given out. */
  ghost predicate IsGone(s: State, id: nat) {
    id < s.nextId && forall x :: x in s.subscriptions ==> x.id != id
  }

  lemma {:induction false} FilteredIsPart(subs: seq<Subscription>, name: string)
    ensures forall x :: x in Filtered(subs, name) ==> x in subs && x.name == name
  {
    if subs != [] {
      FilteredIsPart(subs[1..], name);
      assert forall x :: x in subs <==> x == subs[0] || x in subs[1..];
    }
  }

  lemma {:induction false} NotCounted(callbacks: seq<Subscription>, id: nat)
    requires forall x :: x in callbacks ==> x.id != id
    ensures Count(callbacks, id) == 0
  {
    if callbacks != [] {
      assert callbacks[0] in callbacks && forall x :: x in callbacks[1..] ==> x in callbacks;
      NotCounted(callbacks[1..], id);
    }
  }

  /** The plans made from one state to a later one call nobody by this id, and nothing is scheduled for it. */
  ghost predicate LeftAlone(s: State, later: State, id: nat) {
    && IsGone(later, id) && |s.taken| <= |later.taken| && later.taken[..|s.taken|] == s.taken
    && (forall k :: |s.taken| <= k < |later.taken| ==> forall x :: x in later.taken[k].callbacks ==> x.id != id)
    && Inbox(later, id) == Inbox(s, id)
  }

  lemma GonePlan(s: State, e: Event, id: nat)
    requires IsGone(s, id)
    ensures var plan := Plan(e, Matching(s.subscriptions, e.name));
            && (forall x :: x in plan.callbacks ==> x.id != id)
            && Received(Schedule(s.taken + [plan]), id) == Inbox(s, id)
  {
    var callbacks := Matching(s.subscriptions, e.name);
    FilteredIsPart(s.subscriptions, e.name);
    FilteredIsPart(s.subscriptions, WILDCARD);
    NotCounted(callbacks, id);
    TakenAppend(s.taken, Plan(e, callbacks));
    ReceivedConcat(Schedule(s.taken), DeliveriesFor(e, callbacks), id);
    DeliveriesReceived(e, callbacks, id);
    assert Inbox(s, id) + [] == Inbox(s, id);
  }

  lemma StaysGone(capacity: nat, s: State, a: Action, id: nat)
    requires Inv(s) && IsGone(s, id)
    ensures IsGone(Step(capacity, s, a), id)
  {
    if Enabled(capacity, s, a) && a.Unsubscribe? {
      WithoutIdOk(s.subscriptions, a.id, s.nextId);
    }
  }

  lemma LeftAloneStep(capacity: nat, s: State, mid: State, a: Action, id: nat)
    requires Inv(mid) && LeftAlone(s, mid, id)
    ensures LeftAlone(s, Step(capacity, mid, a), id)
  {
    StaysGone(capacity, mid, a, id);
    if Enabled(capacity, mid, a) && a.Get? && mid.queue[0].Publication? {
      GonePlan(mid, mid.queue[0].event, id);
    }
  }

  lemma {:induction false} GoneIsLeftAlone(capacity: nat, s: State, more: seq<Action>, id: nat)
    requires Inv(s) && IsGone(s, id)
    ensures LeftAlone(s, RunFrom(capacity, s, more), id)
  {
    if more != [] {
      var before := more[..|more| - 1];
      GoneIsLeftAlone(capacity, s, before, id);
      RunFromKeeps(capacity, s, before);
      LeftAloneStep(capacity, s, RunFrom(capacity, s, before), more[|more| - 1], id);
    }
  }

  /** Unsubscribing an id that was given out takes exactly that subscription away, and in every continuation no event
      taken from then on is planned for it: what it is yet to be called for is what it was owed at that moment. */
  lemma UnsubscribedIsLeftAlone(capacity: nat, actions: seq<Action>, id: nat, more: seq<Action>)
    requires id < Run(capacity, actions).nextId
    ensures var s := Run(capacity, actions);
            var left := Step(capacity, s, Unsubscribe(id));
            var later := RunFrom(capacity, left, more);
            && (forall x :: x in left.subscriptions <==> x in s.subscriptions && x.id != id)
            && |left.taken| <= |later.taken|
            && (forall k :: |left.taken| <= k < |later.taken| ==>
                  forall x :: x in later.taken[k].callbacks ==> x.id != id)
            && (forall e :: TimesMadeOrOwed(later, id, e) == TimesMadeOrOwed(s, id, e))
  {
    var s := Run(capacity, actions);
    var left := Step(capacity, s, Unsubscribe(id));
    RunFromKeeps(capacity, INITIAL, actions);
    StepKeeps(capacity, s, Unsubscribe(id));
    WithoutIdOk(s.subscriptions, id, s.nextId);
    GoneIsLeftAlone(capacity, left, more, id);
    forall e ensures TimesMadeOrOwed(RunFrom(capacity, left, more), id, e) == TimesMadeOrOwed(s, id, e) {
      UnsubscribedIsOwedTheSame(capacity, actions, id, more, e);
    }
  }

  lemma UnsubscribedIsOwedTheSame(capacity: nat, actions: seq<Action>, id: nat, more: seq<Action>, e: Event)
    requires var left := Step(capacity, Run(capacity, actions), Unsubscribe(id));
             LeftAlone(left, RunFrom(capacity, left, more), id)
    ensures var left := Step(capacity, Run(capacity, actions), Unsubscribe(id));
            TimesMadeOrOwed(RunFrom(capacity, left, more), id, e) == TimesMadeOrOwed(Run(capacity, actions), id, e)
  {
    var all, d := actions + [Unsubscribe(id)], Delivery(id, e);
    OneStepMore(capacity, INITIAL, actions, Unsubscribe(id));
    RunFromComposes(capacity, INITIAL, all, more);
    RunKeepsBalance(capacity, actions, d);
    RunKeepsBalance(capacity, all + more, d);
    ReceivedTimes(Schedule(Run(capacity, actions).taken), id, e);
    ReceivedTimes(Schedule(Run(capacity, all + more).taken), id, e);
  }
}
