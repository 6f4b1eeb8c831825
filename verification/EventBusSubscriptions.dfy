/** Who is subscribed, told from the actions of a run, and the order in which subscribers are called. */
module EventBusSubscriptions {
  import opened Common
  import opened EventBusModel
  import opened EventBusSafety
  import opened EventBusSubscribers

  // ---------- who is subscribed ----------

  /** A subscription under this name, stripped, was made at this point, got the next id, and was not ended since. */
  ghost predicate MadeAt(capacity: nat, actions: seq<Action>, i: nat, x: Subscription) {
    && i < |actions| && actions[i].Subscribe? && Strip(actions[i].name) == x.name && x.name != ""
    && Run(capacity, actions[..i]).nextId == x.id && Unsubscribe(x.id) !in actions[i..]
  }

  ghost predicate IsMade(capacity: nat, actions: seq<Action>, x: Subscription) {
    exists i :: MadeAt(capacity, actions, i, x)
  }

  /** One action more. */
  lemma StepSubscribes(capacity: nat, s: State, a: Action, x: Subscription)
    requires Inv(s)
    ensures x in Step(capacity, s, a).subscriptions <==>
              || (x in s.subscriptions && a != Unsubscribe(x.id))
              || (a.Subscribe? && Strip(a.name) == x.name && x.name != "" && x.id == s.nextId)
  {
    if a.Subscribe? {
      NamesAreNormalizedExactly(a.name, true);
    } else if a.Unsubscribe? {
      WithoutIdOk(s.subscriptions, a.id, s.nextId);
    }
  }

  lemma MadeEarlier(capacity: nat, actions: seq<Action>, a: Action, i: nat, x: Subscription)
    requires i < |actions|
    ensures MadeAt(capacity, actions + [a], i, x) <==> MadeAt(capacity, actions, i, x) && a != Unsubscribe(x.id)
  {
    var all := actions + [a];
    assert all[..i] == actions[..i] && all[i] == actions[i];
    assert all[i..] == actions[i..] + [a];
  }

  lemma MadeNow(capacity: nat, actions: seq<Action>, a: Action, x: Subscription)
    ensures MadeAt(capacity, actions + [a], |actions|, x) <==>
              a.Subscribe? && Strip(a.name) == x.name && x.name != "" && x.id == Run(capacity, actions).nextId
  {
    var all := actions + [a];
    assert all[..|actions|] == actions && all[|actions|] == a && all[|actions|..] == [a];
  }

  lemma OneActionMore(capacity: nat, actions: seq<Action>, a: Action, x: Subscription)
    ensures IsMade(capacity, actions + [a], x) <==>
              || (IsMade(capacity, actions, x) && a != Unsubscribe(x.id))
              || (a.Subscribe? && Strip(a.name) == x.name && x.name != "" && x.id == Run(capacity, actions).nextId)
  {
    MadeNow(capacity, actions, a, x);
    forall i: nat | i < |actions|
      ensures MadeAt(capacity, actions + [a], i, x) <==> MadeAt(capacity, actions, i, x) && a != Unsubscribe(x.id)
    {
      MadeEarlier(capacity, actions, a, i, x);
    }
  }

  /** Over every run exactly those are subscribed whose subscription was made and has not been ended since, under the
      stripped name they gave. */
  lemma {:induction false} SubscribedAreTheMade(capacity: nat, actions: seq<Action>, x: Subscription)
    ensures x in Run(capacity, actions).subscriptions <==> IsMade(capacity, actions, x)
  {
    if actions != [] {
      var before, a := actions[..|actions| - 1], actions[|actions| - 1];
      assert actions == before + [a];
      SubscribedAreTheMade(capacity, before, x);
      RunFromKeeps(capacity, INITIAL, before);
      StepSubscribes(capacity, Run(capacity, before), a, x);
      OneActionMore(capacity, before, a, x);
    }
  }

  // ---------- in which order they are called ----------

  /** In the order of their ids, which are given out in the order of subscribing. */
  ghost predicate Ascending(subs: seq<Subscription>) {
    forall i, j :: 0 <= i < j < |subs| ==> subs[i].id < subs[j].id
  }

  lemma AscendingHead(subs: seq<Subscription>)
    requires Ascending(subs) && subs != []
    ensures Ascending(subs[1..]) && forall x :: x in subs[1..] ==> subs[0].id < x.id
  {
  }

  lemma {:induction false} FilteredAscends(subs: seq<Subscription>, name: string)
    requires Ascending(subs)
    ensures Ascending(Filtered(subs, name))
  {
    if subs != [] {
      AscendingHead(subs);
      FilteredAscends(subs[1..], name);
      FilteredIsPart(subs[1..], name);
    }
  }

  lemma {:induction false} WithoutAscends(subs: seq<Subscription>, id: nat, bound: nat)
    requires Ascending(subs) && IdsOk(subs, bound)
    ensures Ascending(WithoutId(subs, id))
  {
    if subs != [] {
      AscendingHead(subs);
      assert IdsOk(subs[1..], bound);
      WithoutAscends(subs[1..], id, bound);
      WithoutIdOk(subs[1..], id, bound);
    }
  }

  /** The callbacks chosen for an event: those for its name first, and each kind in the order of subscribing. */
  ghost predicate InOrder(p: Plan) {
    p.event.name != WILDCARD ==>
      forall i, j :: 0 <= i < j < |p.callbacks| ==>
        var earlier, later := p.callbacks[i], p.callbacks[j];
        && (later.name == p.event.name ==> earlier.name == p.event.name)
        && (earlier.name == later.name ==> earlier.id < later.id)
  }

  lemma MatchingInOrder(subs: seq<Subscription>, e: Event)
    requires Ascending(subs)
    ensures InOrder(Plan(e, Matching(subs, e.name)))
  {
    FilteredAscends(subs, e.name);
    FilteredAscends(subs, WILDCARD);
    FilteredNames(subs, e.name);
    FilteredNames(subs, WILDCARD);
  }

  ghost predicate OrderOk(s: State) {
    Ascending(s.subscriptions) && forall k :: 0 <= k < |s.taken| ==> InOrder(s.taken[k])
  }

  lemma StepKeepsAscending(capacity: nat, s: State, a: Action)
    requires Inv(s) && Ascending(s.subscriptions)
    ensures Ascending(Step(capacity, s, a).subscriptions)
  {
    if Enabled(capacity, s, a) && a.Unsubscribe? {
      WithoutAscends(s.subscriptions, a.id, s.nextId);
    }
  }

  /** A step takes one event at most. */
  lemma StepTakes(capacity: nat, s: State, a: Action)
    ensures var taken := Step(capacity, s, a).taken;
            || taken == s.taken
            || exists e: Event :: taken == s.taken + [Plan(e, Matching(s.subscriptions, e.name))]
  {
    if Enabled(capacity, s, a) && a.Get? && s.queue[0].Publication? {
      var e := s.queue[0].event;
      assert Step(capacity, s, a).taken == s.taken + [Plan(e, Matching(s.subscriptions, e.name))];
    }
  }

  lemma StepTakesInOrder(capacity: nat, s: State, a: Action, k: nat)
    requires OrderOk(s) && k < |Step(capacity, s, a).taken|
    ensures InOrder(Step(capacity, s, a).taken[k])
  {
    StepTakes(capacity, s, a);
    if k >= |s.taken| {
      var e: Event :| Step(capacity, s, a).taken == s.taken + [Plan(e, Matching(s.subscriptions, e.name))];
      MatchingInOrder(s.subscriptions, e);
    }
  }

  lemma {:induction false} RunKeepsOrder(capacity: nat, actions: seq<Action>)
    ensures OrderOk(Run(capacity, actions))
  {
    if actions != [] {
      var before := actions[..|actions| - 1];
      RunKeepsOrder(capacity, before);
      RunFromKeeps(capacity, INITIAL, before);
      var s, a := Run(capacity, before), actions[|actions| - 1];
      StepKeepsAscending(capacity, s, a);
      forall k: nat | k < |Step(capacity, s, a).taken| ensures InOrder(Step(capacity, s, a).taken[k]) {
        StepTakesInOrder(capacity, s, a, k);
      }
    }
  }

  /** Over every run the subscribers of an event are called in the order of subscribing, those for its name before those
      for all events. */
  lemma CallsFollowSubscription(capacity: nat, actions: seq<Action>, k: nat, i: nat, j: nat)
    requires k < |Run(capacity, actions).taken| && i < j < |Run(capacity, actions).taken[k].callbacks|
    ensures var plan := Run(capacity, actions).taken[k];
            var earlier, later := plan.callbacks[i], plan.callbacks[j];
            plan.event.name != "*" ==>
              && (later.name == plan.event.name ==> earlier.name == plan.event.name)
              && (earlier.name == later.name ==> earlier.id < later.id)
  {
    RunKeepsOrder(capacity, actions);
    assert InOrder(Run(capacity, actions).taken[k]);
  }
}
