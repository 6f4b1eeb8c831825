/** Battery hysteresis: the two flags of the state monitor and the word of events it emits. */
module StateMonitors {

  datatype BatteryEvent = Warn | Critical | Recharged

  datatype Thresholds = Thresholds(critical: int, warn: int, resume: int)

  /** What the configuration section insists on. */
  predicate ValidThresholds(t: Thresholds) {
    0 <= t.critical <= t.warn < t.resume <= 100
  }

  datatype Flags = Flags(warnEmitted: bool, criticalEmitted: bool)

  /** The flags and the events of one poll. */
  function Poll(t: Thresholds, f: Flags, pct: int): (r: (Flags, seq<BatteryEvent>)) {
    var warned := pct <= t.warn && !f.warnEmitted;
    var alarmed := pct <= t.critical && !f.criticalEmitted;
    var flags := Flags(f.warnEmitted || warned, f.criticalEmitted || alarmed);
    var events := (if warned then [Warn] else []) + (if alarmed then [Critical] else []);
    if pct >= t.resume && (flags.warnEmitted || flags.criticalEmitted)
    then (Flags(false, false), events + [Recharged])
    else (flags, events)
  }

  function FlagsAfter(t: Thresholds, polls: seq<int>): Flags {
    if polls == [] then Flags(false, false) else Poll(t, FlagsAfter(t, polls[..|polls| - 1]), polls[|polls| - 1]).0
  }

  /** The word emitted over a whole sequence of telemetry polls. */
  function Emitted(t: Thresholds, polls: seq<int>): seq<BatteryEvent> {
    if polls == [] then []
    else Emitted(t, polls[..|polls| - 1]) + Poll(t, FlagsAfter(t, polls[..|polls| - 1]), polls[|polls| - 1]).1
  }

  /** The prefixes of (warn critical? recharged)*. */
  predicate IsCyclePrefix(w: seq<BatteryEvent>)
    decreases |w|
  {
    w == [] ||
    (w[0] == Warn &&
     (|w| == 1
      || (w[1] == Recharged && IsCyclePrefix(w[2..]))
      || (w[1] == Critical && (|w| == 2 || (w[2] == Recharged && IsCyclePrefix(w[3..]))))))
  }

  /** Where in a cycle a word stops. */
  function FlagsOf(w: seq<BatteryEvent>): Flags
    decreases |w|
  {
    if w == [] || w[|w| - 1] == Recharged then Flags(false, false)
    else if w[|w| - 1] == Critical then Flags(true, true)
    else Flags(true, false)
  }

  /** Which event may come next. */
  predicate MayFollow(w: seq<BatteryEvent>, e: BatteryEvent) {
    match e
    case Warn => FlagsOf(w) == Flags(false, false)
    case Critical => FlagsOf(w) == Flags(true, false)
    case Recharged => FlagsOf(w) != Flags(false, false)
  }

  /** The cycle grammar read from the front agrees with the automaton read from the back. */
  lemma {:induction false} ExtendsCycle(w: seq<BatteryEvent>, e: BatteryEvent)
    ensures IsCyclePrefix(w + [e]) <==> IsCyclePrefix(w) && MayFollow(w, e)
    decreases |w|
  {
    var x := w + [e];
    if |w| >= 2 && w[0] == Warn && w[1] == Recharged {
      ExtendsCycle(w[2..], e);
      assert x[2..] == w[2..] + [e];
      assert w[2..] != [] ==> w[2..][|w| - 3] == w[|w| - 1];
    } else if |w| >= 3 && w[0] == Warn && w[1] == Critical && w[2] == Recharged {
      ExtendsCycle(w[3..], e);
      assert x[3..] == w[3..] + [e];
      assert w[3..] != [] ==> w[3..][|w| - 4] == w[|w| - 1];
    }
  }

  /** The flags always say where in the cycle the emitted word stops, so the word is a prefix of
      (warn critical? recharged)* for every telemetry sequence. */
  lemma {:induction false} EmittedIsCyclePrefix(t: Thresholds, polls: seq<int>)
    requires ValidThresholds(t)
    ensures IsCyclePrefix(Emitted(t, polls)) && FlagsOf(Emitted(t, polls)) == FlagsAfter(t, polls)
  {
    if polls != [] {
      var before, pct := polls[..|polls| - 1], polls[|polls| - 1];
      EmittedIsCyclePrefix(t, before);
      PollExtendsCycle(t, Emitted(t, before), pct);
    }
  }

  lemma PollExtendsCycle(t: Thresholds, w: seq<BatteryEvent>, pct: int)
    requires ValidThresholds(t) && IsCyclePrefix(w)
    ensures var (flags, events) := Poll(t, FlagsOf(w), pct); IsCyclePrefix(w + events) && FlagsOf(w + events) == flags
  {
    var events := Poll(t, FlagsOf(w), pct).1;
    if |events| == 2 {
      ExtendsCycle(w, events[0]);
      ExtendsCycle(w + [events[0]], events[1]);
      assert w + events == w + [events[0]] + [events[1]];
    } else if |events| == 1 {
      ExtendsCycle(w, events[0]);
      assert events == [events[0]];
    } else {
      assert w + events == w;
    }
  }

  /** A reading that makes the monitor emit a given event next. */
  function ReadingFor(t: Thresholds, e: BatteryEvent): int {
    match e
    case Warn => t.warn
    case Critical => t.critical
    case Recharged => t.resume
  }

  function ReadingsFor(t: Thresholds, w: seq<BatteryEvent>): seq<int> {
    if w == [] then [] else ReadingsFor(t, w[..|w| - 1]) + [ReadingFor(t, w[|w| - 1])]
  }

  /** With distinct thresholds every prefix of (warn critical? recharged)* is emitted for some telemetry. */
  lemma {:induction false} EveryCyclePrefixIsEmitted(t: Thresholds, w: seq<BatteryEvent>)
    requires ValidThresholds(t) && t.critical < t.warn && IsCyclePrefix(w)
    ensures Emitted(t, ReadingsFor(t, w)) == w
  {
    if w != [] {
      var before, e := w[..|w| - 1], w[|w| - 1];
      assert w == before + [e];
      ExtendsCycle(before, e);
      EveryCyclePrefixIsEmitted(t, before);
      EmittedIsCyclePrefix(t, ReadingsFor(t, before));
      OnePollMore(t, ReadingsFor(t, before), ReadingFor(t, e));
      ReadingMakesEvent(t, before, e);
    }
  }

  lemma ReadingMakesEvent(t: Thresholds, w: seq<BatteryEvent>, e: BatteryEvent)
    requires ValidThresholds(t) && t.critical < t.warn && MayFollow(w, e)
    ensures Poll(t, FlagsOf(w), ReadingFor(t, e)).1 == [e]
  {
  }

  lemma OnePollMore(t: Thresholds, polls: seq<int>, pct: int)
    ensures var (flags, events) := Poll(t, FlagsAfter(t, polls), pct);
            FlagsAfter(t, polls + [pct]) == flags && Emitted(t, polls + [pct]) == Emitted(t, polls) + events
  {
    assert (polls + [pct])[..|polls|] == polls;
  }

  /** The monitor emits a warning on its own, for some telemetry, exactly when the two lower thresholds differ: the
      emitted words are then all the prefixes of (warn critical? recharged)*, and otherwise a proper part. */
  lemma LoneWarningNeedsDistinctThresholds(t: Thresholds)
    requires ValidThresholds(t)
    ensures (exists polls :: Emitted(t, polls) == [Warn]) <==> t.critical < t.warn
  {
    if t.critical < t.warn {
      EveryCyclePrefixIsEmitted(t, [Warn]);
    } else {
      forall polls ensures Emitted(t, polls) != [Warn] {
        EqualThresholdsPairUp(t, polls);
      }
    }
  }

  lemma {:induction false} EqualThresholdsPairUp(t: Thresholds, polls: seq<int>)
    requires ValidThresholds(t) && t.critical == t.warn
    ensures FlagsAfter(t, polls).warnEmitted == FlagsAfter(t, polls).criticalEmitted
    ensures Emitted(t, polls) != [Warn]
  {
    if polls != [] {
      EqualThresholdsPairUp(t, polls[..|polls| - 1]);
      EmittedIsCyclePrefix(t, polls);
    }
  }

  // ---------- the events told from the readings ----------

  /** A reading at or below a level has come since the last reading at or above another, or since the beginning. */
  predicate LowSince(level: int, reset: int, polls: seq<int>) {
    exists i :: 0 <= i < |polls| && polls[i] <= level && forall j :: i < j < |polls| ==> polls[j] < reset
  }

  lemma StillLow(level: int, reset: int, polls: seq<int>, pct: int)
    requires pct <= level || (LowSince(level, reset, polls) && pct < reset)
    ensures LowSince(level, reset, polls + [pct])
  {
    var all := polls + [pct];
    if pct <= level {
      assert all[|polls|] <= level;
    } else {
      var i :| 0 <= i < |polls| && polls[i] <= level && forall j :: i < j < |polls| ==> polls[j] < reset;
      assert all[i] <= level && forall j :: i < j < |all| ==> all[j] < reset;
    }
  }

  lemma WasLow(level: int, reset: int, polls: seq<int>, pct: int)
    requires LowSince(level, reset, polls + [pct]) && pct > level
    ensures LowSince(level, reset, polls) && pct < reset
  {
    var all := polls + [pct];
    var i :| 0 <= i < |all| && all[i] <= level && forall j :: i < j < |all| ==> all[j] < reset;
    assert all[|polls|] == pct && forall j :: 0 <= j < |polls| ==> all[j] == polls[j];
    assert polls[i] <= level;
  }

  lemma LowSinceOneMore(level: int, reset: int, polls: seq<int>, pct: int)
    ensures LowSince(level, reset, polls + [pct]) <==> pct <= level || (LowSince(level, reset, polls) && pct < reset)
  {
    if LowSince(level, reset, polls + [pct]) && pct > level {
      WasLow(level, reset, polls, pct);
    }
    if pct <= level || (LowSince(level, reset, polls) && pct < reset) {
      StillLow(level, reset, polls, pct);
    }
  }

  lemma {:induction false} FlagsTellTheReadings(t: Thresholds, polls: seq<int>)
    requires ValidThresholds(t)
    ensures FlagsAfter(t, polls) == Flags(LowSince(t.warn, t.resume, polls), LowSince(t.critical, t.resume, polls))
  {
    if polls != [] {
      var before, pct := polls[..|polls| - 1], polls[|polls| - 1];
      assert polls == before + [pct];
      FlagsTellTheReadings(t, before);
      LowSinceOneMore(t.warn, t.resume, before, pct);
      LowSinceOneMore(t.critical, t.resume, before, pct);
    }
  }

  /** For any telemetry the next reading is reported as a warning, as critical, or as recharged exactly by what was read
      since the last recharged level: the first one low, the first one critical, and the first one recharged after a low
      one. */
  lemma EventsTellTheReadings(t: Thresholds, polls: seq<int>, pct: int)
    requires ValidThresholds(t)
    ensures var warns := pct <= t.warn && !LowSince(t.warn, t.resume, polls);
            var alarms := pct <= t.critical && !LowSince(t.critical, t.resume, polls);
            var recharges := pct >= t.resume && LowSince(t.warn, t.resume, polls);
            Emitted(t, polls + [pct]) == Emitted(t, polls) + (if warns then [Warn] else [])
                                         + (if alarms then [Critical] else []) + (if recharges then [Recharged] else [])
  {
    FlagsTellTheReadings(t, polls);
    OnePollMore(t, polls, pct);
    CriticalIsLow(t, polls);
    var warns := pct <= t.warn && !LowSince(t.warn, t.resume, polls);
    var alarms := pct <= t.critical && !LowSince(t.critical, t.resume, polls);
    var recharges := pct >= t.resume && LowSince(t.warn, t.resume, polls);
    PollTells(t, FlagsAfter(t, polls), pct);
    ThreeMore(Emitted(t, polls), if warns then [Warn] else [], if alarms then [Critical] else [],
              if recharges then [Recharged] else []);
  }

  lemma PollTells(t: Thresholds, f: Flags, pct: int)
    requires ValidThresholds(t) && (f.criticalEmitted ==> f.warnEmitted)
    ensures Poll(t, f, pct).1 == (if pct <= t.warn && !f.warnEmitted then [Warn] else [])
                                 + (if pct <= t.critical && !f.criticalEmitted then [Critical] else [])
                                 + (if pct >= t.resume && f.warnEmitted then [Recharged] else [])
  {
  }

  lemma ThreeMore(earlier: seq<BatteryEvent>, a: seq<BatteryEvent>, b: seq<BatteryEvent>, c: seq<BatteryEvent>)
    ensures earlier + (a + b + c) == earlier + a + b + c
  {
  }

  lemma CriticalIsLow(t: Thresholds, polls: seq<int>)
    requires ValidThresholds(t)
    ensures LowSince(t.critical, t.resume, polls) ==> LowSince(t.warn, t.resume, polls)
  {
  }

  /** The monitor's flags and its battery branch. */
  class StateMonitor {
    var batteryWarnEmitted: bool
    var batteryCriticalEmitted: bool

    function View(): Flags
      reads this
    {
      Flags(batteryWarnEmitted, batteryCriticalEmitted)
    }

    constructor ()
      ensures View() == Flags(false, false)
    {
      batteryWarnEmitted, batteryCriticalEmitted := false, false;
    }

    method HandleBatteryThresholds(t: Thresholds, pct: int) returns (published: seq<BatteryEvent>)
      modifies this
      ensures (View(), published) == Poll(t, old(View()), pct)
    {
      published := [];
      if pct <= t.warn && !batteryWarnEmitted {
        batteryWarnEmitted := true;
        published := published + [Warn];
      }
      if pct <= t.critical && !batteryCriticalEmitted {
        batteryCriticalEmitted := true;
        published := published + [Critical];
      }
      if pct >= t.resume && (batteryWarnEmitted || batteryCriticalEmitted) {
        batteryWarnEmitted := false;
        batteryCriticalEmitted := false;
        published := published + [Recharged];
      }
      assert published == Poll(t, old(View()), pct).1;
    }
  }
}
