/** What a trace of one navigation must look like, and what that means. */
module NavigatorTrace {
  import opened Common
  import opened Kinematics
  import opened NavigatorModel

  /** When the obstacle episode that is still open began. */
  function EpisodeStart(t: Trace): Option<real> {
    if t.Begin? then None
    else
      match t.last
      case Detected(at, opens) => if opens then Some(at) else EpisodeStart(t.before)
      case Resumed(_, _) => None
      case Ended(_) => None
      case _ => EpisodeStart(t.before)
  }

  /** When a sensor clearance was last accepted, if nothing was detected or resumed since. */
  function ArmedSince(t: Trace): Option<real> {
    if t.Begin? then None
    else
      match t.last
      case ClearArmed(at) => Some(at)
      case Detected(_, _) => None
      case Resumed(_, _) => None
      case Ended(_) => None
      case _ => ArmedSince(t.before)
  }

  function Episodes(t: Trace): nat {
    if t.Begin? then 0 else Episodes(t.before) + if t.last.Detected? && t.last.opens then 1 else 0
  }

  function SpuriousClears(t: Trace): nat {
    if t.Begin? then 0 else SpuriousClears(t.before) + if t.last.Resumed? && t.last.reason.Spurious? then 1 else 0
  }

  /** Episodes that were not spurious. */
  function Strikes(t: Trace): int {
    Episodes(t) - SpuriousClears(t)
  }

  /** The waypoints reached, in order. */
  function Arrivals(t: Trace): seq<nat> {
    if t.Begin? then [] else if t.last.Arrived? then Arrivals(t.before) + [t.last.i] else Arrivals(t.before)
  }

  /** Whether a release or a cancel came after the last arrival. */
  predicate ReleasedSinceArrival(t: Trace) {
    if t.Begin? then false
    else
      match t.last
      case Arrived(_) => false
      case Released => true
      case CancelRequested => true
      case _ => ReleasedSinceArrival(t.before)
  }

  /** The first n waypoints may be left behind: a hold at the last of them was released or cancelled. */
  predicate MayLeave(route: seq<Waypoint>, t: Trace, n: nat) {
    0 < n <= |route| && route[n - 1].hold ==> ReleasedSinceArrival(t)
  }

  ghost predicate EntryOk(cfg: Config, route: seq<Waypoint>, t: Trace, e: Entry) {
    match e
    case Detected(at, opens) => opens <==> EpisodeStart(t).None?
    case ClearArmed(at) =>
      EpisodeStart(t).Some? && at - EpisodeStart(t).value >= cfg.minHold && Strikes(t) < cfg.repeatCount
    case Resumed(reason, at) =>
      && EpisodeStart(t).Some?
      && (match reason
          case Manual => true
          case Spurious => at - EpisodeStart(t).value < cfg.minHold && 1 <= Strikes(t) < cfg.repeatCount
          case StableClear =>
            ArmedSince(t).Some? && at >= ArmedSince(t).value + cfg.stableClear && Strikes(t) < cfg.repeatCount)
    case Released => true
    case CancelRequested => true
    case Arrived(i) => i < |route| && |Arrivals(t)| == i && MayLeave(route, t, i)
    case Commanded(i, distance, command) =>
      && i < |route| && |Arrivals(t)| == i && MayLeave(route, t, i)
      && CommandBounded(cfg.limits, route[i].velocity, distance, command)
    case Ended(outcome) => outcome.Success? ==> |Arrivals(t)| == |route| && MayLeave(route, t, |route|)
  }

  /** Every entry was justified when it was made and nothing follows the end. */
  ghost predicate TraceOk(cfg: Config, route: seq<Waypoint>, t: Trace) {
    t.Then? ==>
      TraceOk(cfg, route, t.before) && EntryOk(cfg, route, t.before, t.last)
          && !(t.before.Then? && t.before.last.Ended?)
  }

  /** One trace continues another. */
  predicate Extends(later: Trace, earlier: Trace) {
    later == earlier || (later.Then? && Extends(later.before, earlier))
  }

  /** Arrivals are published exactly once per reached waypoint, in route order. */
  lemma {:induction false} ArrivalsInRouteOrder(cfg: Config, route: seq<Waypoint>, t: Trace)
    requires TraceOk(cfg, route, t)
    ensures |Arrivals(t)| <= |route| && forall k :: 0 <= k < |Arrivals(t)| ==> Arrivals(t)[k] == k
  {
    if t.Then? {
      ArrivalsInRouteOrder(cfg, route, t.before);
    }
  }

  /** Once the count has reached the threshold it never drops below it in that run. */
  lemma {:induction false} ThresholdLatches(cfg: Config, route: seq<Waypoint>, later: Trace, earlier: Trace)
    requires TraceOk(cfg, route, later) && Extends(later, earlier)
    requires Strikes(earlier) >= cfg.repeatCount
    ensures Strikes(later) >= cfg.repeatCount
  {
    if later != earlier {
      ThresholdLatches(cfg, route, later.before, earlier);
    }
  }

  /** ... and every later resumption is by hand. */
  lemma ManualAfterThreshold(cfg: Config, route: seq<Waypoint>, later: Trace, earlier: Trace)
    requires TraceOk(cfg, route, later) && later.Then? && Extends(later.before, earlier)
    requires Strikes(earlier) >= cfg.repeatCount && later.last.Resumed?
    ensures later.last.reason == Manual
  {
    ThresholdLatches(cfg, route, later.before, earlier);
  }

  /** No detection and no resumption between two points of a trace. */
  predicate Undisturbed(later: Trace, earlier: Trace) {
    later == earlier
    || (later.Then? && !later.last.Detected? && !later.last.Resumed? && Undisturbed(later.before, earlier))
  }

  lemma {:induction false} ArmedSinceMeans(t: Trace)
    requires ArmedSince(t).Some?
    ensures exists p :: Undisturbed(t, p) && p.Then? && p.last == ClearArmed(ArmedSince(t).value)
  {
    if t.last.ClearArmed? {
      assert Undisturbed(t, t);
    } else {
      ArmedSinceMeans(t.before);
      var p :| Undisturbed(t.before, p) && p.Then? && p.last == ClearArmed(ArmedSince(t).value);
      assert Undisturbed(t, p);
    }
  }

  /** A timed resumption follows an accepted sensor clearance by at least the stable-clear interval, with no
      detection and no other resumption in between. */
  lemma TimedClearSawNoDetection(cfg: Config, route: seq<Waypoint>, t: Trace)
    requires TraceOk(cfg, route, t) && t.Then? && t.last.Resumed? && t.last.reason.StableClear?
    ensures exists p ::
              Undisturbed(t.before, p) && p.Then? && p.last.ClearArmed? && t.last.at >= p.last.at + cfg.stableClear
  {
    ArmedSinceMeans(t.before);
  }

  /** No resumption between two points of a trace. */
  predicate SameEpisode(later: Trace, earlier: Trace) {
    later == earlier
    || (later.Then? && !later.last.Resumed? && !(later.last.Detected? && later.last.opens)
        && SameEpisode(later.before, earlier))
  }

  lemma {:induction false} EpisodeStartMeans(t: Trace)
    requires EpisodeStart(t).Some?
    ensures exists p :: SameEpisode(t, p) && p.Then? && p.last == Detected(EpisodeStart(t).value, true)
  {
    if t.last.Detected? && t.last.opens {
      assert SameEpisode(t, t);
    } else {
      EpisodeStartMeans(t.before);
      var p :| SameEpisode(t.before, p) && p.Then? && p.last == Detected(EpisodeStart(t).value, true);
      assert SameEpisode(t, p);
    }
  }

  /** A spurious resumption ends an episode younger than the minimum hold. */
  lemma SpuriousClearEndsYoungEpisode(cfg: Config, route: seq<Waypoint>, t: Trace)
    requires TraceOk(cfg, route, t) && t.Then? && t.last.Resumed? && t.last.reason.Spurious?
    ensures exists p ::
              SameEpisode(t.before, p) && p.Then? && p.last.Detected? && p.last.opens
              && t.last.at - p.last.at < cfg.minHold
  {
    EpisodeStartMeans(t.before);
  }

  /** No arrival between two points of a trace. */
  predicate SameWaypoint(later: Trace, earlier: Trace) {
    later == earlier || (later.Then? && !later.last.Arrived? && SameWaypoint(later.before, earlier))
  }

  lemma {:induction false} ReleaseMeans(t: Trace)
    requires ReleasedSinceArrival(t)
    ensures exists p :: SameWaypoint(t, p) && p.Then? && (p.last.Released? || p.last.CancelRequested?)
  {
    if t.last.Released? || t.last.CancelRequested? {
      assert SameWaypoint(t, t);
    } else {
      ReleaseMeans(t.before);
      var p :| SameWaypoint(t.before, p) && p.Then? && (p.last.Released? || p.last.CancelRequested?);
      assert SameWaypoint(t, p);
    }
  }

  /** A hold waypoint is left, for the next waypoint or for a successful end, only after a release for this robot
      or a cancel that came after its arrival. */
  lemma HoldIsLeftOnlyAfterRelease(cfg: Config, route: seq<Waypoint>, t: Trace, n: nat)
    requires TraceOk(cfg, route, t) && t.Then? && 0 < n <= |route| && route[n - 1].hold
    requires t.last == Arrived(n) || (t.last.Commanded? && t.last.i == n) || (t.last == Ended(Success) && n == |route|)
    ensures exists p :: SameWaypoint(t.before, p) && p.Then? && (p.last.Released? || p.last.CancelRequested?)
  {
    ReleaseMeans(t.before);
  }
}
