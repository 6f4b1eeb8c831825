/** The proportional controller: heading normalisation, the resume ramp and the velocity command.
    Distances and bearings come from outside; angles are reals. */
module Kinematics {
  import opened Common

  const PI: real := 3.141592653589793
  const TWO_PI: real := 2.0 * PI

  datatype Velocity = Velocity(vx: real, vy: real, yawRate: real)

  const STILL := Velocity(0.0, 0.0, 0.0)

  /** The integer part, rounded toward zero. */
  function Truncate(x: real): int {
    if x >= 0.0 then x.Floor else -((-x).Floor)
  }

  /** math.fmod for a positive modulus: the remainder has the sign of the dividend. */
  function Fmod(x: real, m: real): real
    requires m > 0.0
  {
    x - m * (Truncate(x / m) as real)
  }

  function NormalizeAngle(angle: real): real {
    var r := Fmod(angle, TWO_PI);
    if r > PI then r - TWO_PI
    else if r < -PI then r + TWO_PI
    else r
  }

  /** A fraction of a modulus. */
  function Part(m: real, f: real): real {
    m * f
  }

  /** Multiplying the fractional part back. */
  lemma Fraction(m: real, f: real)
    requires m > 0.0 && 0.0 <= f < 1.0
    ensures 0.0 <= Part(m, f) < m
  {
  }

  lemma FmodIsFraction(x: real, m: real) returns (f: real)
    requires m > 0.0
    ensures 0.0 <= f < 1.0
    ensures Fmod(x, m) == if x >= 0.0 then Part(m, f) else -Part(m, f)
  {
    var q := x / m;
    var k := Truncate(q) as real;
    f := if x >= 0.0 then q - k else k - q;
  }

  lemma FmodRange(x: real, m: real)
    requires m > 0.0
    ensures -m < Fmod(x, m) < m
    ensures x >= 0.0 ==> Fmod(x, m) >= 0.0
    ensures x <= 0.0 ==> Fmod(x, m) <= 0.0
  {
    var f := FmodIsFraction(x, m);
    Fraction(m, f);
  }

  /** The angle after that many whole turns back. */
  function Turned(angle: real, turns: int): real {
    angle - TWO_PI * (turns as real)
  }

  /** The normalised angle lies in [-pi, pi] and differs from the angle by whole turns; angles already there stay. */
  lemma NormalizeAngleIsCongruent(angle: real)
    ensures -PI <= NormalizeAngle(angle) <= PI
    ensures exists k: int :: NormalizeAngle(angle) == Turned(angle, k)
    ensures -PI <= angle <= PI ==> NormalizeAngle(angle) == angle
  {
    FmodRange(angle, TWO_PI);
    var t := Truncate(angle / TWO_PI);
    var r := Fmod(angle, TWO_PI);
    var k := if r > PI then t + 1 else if r < -PI then t - 1 else t;
    assert NormalizeAngle(angle) == Turned(angle, k);
    if -PI <= angle <= PI {
      assert -1.0 < angle / TWO_PI < 1.0;
      assert t == 0;
    }
  }

  /** How much of the speed is allowed some time after a resume, and whether the ramp goes on. */
  function RampFactor(rampAt: Option<real>, duration: real, now: real): (real, Option<real>) {
    if rampAt.None? || duration <= 0.0 then (1.0, rampAt)
    else if now - rampAt.value >= duration then (1.0, None)
    else ((now - rampAt.value) / duration, rampAt)
  }

  datatype Limits = Limits(headingTolerance: real, maxYawRate: real)

  /** The speed aimed at before the ramp. */
  function Cruise(velocity: real, distance: real): real {
    Min(velocity, Max(0.0, distance * 0.8))
  }

  /** A speed reduced by a factor. */
  function Scaled(speed: real, factor: real): (r: real)
    ensures speed >= 0.0 && 0.0 <= factor <= 1.0 ==> 0.0 <= r <= speed
  {
    Shrink(speed, factor);
    speed * factor
  }

  lemma Shrink(base: real, factor: real)
    ensures base >= 0.0 && 0.0 <= factor <= 1.0 ==> 0.0 <= base * factor <= base
  {
  }

  function ForwardSpeed(limits: Limits, velocity: real, distance: real, headingError: real, ramp: real): real {
    var full := Scaled(Cruise(velocity, distance), ramp);
    if Abs(headingError) > limits.headingTolerance then Scaled(full, 0.25) else full
  }

  function Command(limits: Limits, velocity: real, distance: real, bearing: real, yaw: real, ramp: real): Velocity {
    var headingError := NormalizeAngle(bearing - yaw);
    Velocity(ForwardSpeed(limits, velocity, distance, headingError, ramp), 0.0,
             Max(-limits.maxYawRate, Min(limits.maxYawRate, headingError * 1.5)))
  }

  ghost predicate CommandBounded(limits: Limits, velocity: real, distance: real, v: Velocity) {
    && 0.0 <= v.vx <= Min(velocity, 0.8 * distance)
    && v.vy == 0.0
    && -limits.maxYawRate <= v.yawRate <= limits.maxYawRate
  }

  lemma RampFactorRange(rampAt: Option<real>, duration: real, now: real)
    requires rampAt.Some? ==> rampAt.value <= now
    ensures 0.0 <= RampFactor(rampAt, duration, now).0 <= 1.0
  {
    if rampAt.Some? && duration > 0.0 && now - rampAt.value < duration {
      var f := (now - rampAt.value) / duration;
      assert f * duration == now - rampAt.value;
    }
  }

  lemma ForwardSpeedRange(limits: Limits, velocity: real, distance: real, headingError: real, ramp: real)
    requires velocity >= 0.0 && distance >= 0.0 && 0.0 <= ramp <= 1.0
    ensures 0.0 <= ForwardSpeed(limits, velocity, distance, headingError, ramp) <= Min(velocity, 0.8 * distance)
  {
    var base := Cruise(velocity, distance);
    assert 0.0 <= base <= Min(velocity, 0.8 * distance);
    assert 0.0 <= Scaled(Scaled(base, ramp), 0.25) <= Scaled(base, ramp) <= base;
  }

  lemma ScaledToNothing(speed: real, factor: real)
    ensures Scaled(speed, factor) == 0.0 <==> speed == 0.0 || factor == 0.0
  {
  }

  /** On the way to a waypoint the command is standstill exactly at the start of a ramp with the heading right. */
  lemma CommandIsStillExactly(limits: Limits, velocity: real, distance: real, bearing: real, yaw: real, ramp: real)
    requires velocity > 0.0 && distance > 0.0 && limits.maxYawRate > 0.0
    ensures Command(limits, velocity, distance, bearing, yaw, ramp) == STILL <==>
              ramp == 0.0 && NormalizeAngle(bearing - yaw) == 0.0
  {
    ScaledToNothing(Cruise(velocity, distance), ramp);
    ScaledToNothing(Scaled(Cruise(velocity, distance), ramp), 0.25);
  }

  /** Every command is forward only, no faster than the waypoint asks and the distance allows, and turns no
      faster than the limit. */
  lemma CommandIsBounded(limits: Limits, velocity: real, distance: real, bearing: real, yaw: real, ramp: real)
    requires velocity >= 0.0 && distance >= 0.0 && limits.maxYawRate >= 0.0 && 0.0 <= ramp <= 1.0
    ensures CommandBounded(limits, velocity, distance, Command(limits, velocity, distance, bearing, yaw, ramp))
  {
    ForwardSpeedRange(limits, velocity, distance, NormalizeAngle(bearing - yaw), ramp);
  }

  // ---------- what the command does ----------

  /** Some time later, turning at a rate. */
  function AfterTurning(error: real, rate: real, seconds: real): real {
    error - rate * seconds
  }

  /** The robot turns toward the bearing, the faster the more it is off, up to the limit. */
  lemma TurnsTowardTheBearing(limits: Limits, velocity: real, distance: real, bearing: real, yaw: real, ramp: real)
    requires limits.maxYawRate > 0.0
    ensures var error := NormalizeAngle(bearing - yaw);
            var rate := Command(limits, velocity, distance, bearing, yaw, ramp).yawRate;
            && (rate > 0.0 <==> error > 0.0) && (rate < 0.0 <==> error < 0.0)
            && Abs(rate) == Min(limits.maxYawRate, 1.5 * Abs(error))
  {
  }

  lemma Positive(x: real, y: real)
    requires x > 0.0 && y > 0.0
    ensures x * y > 0.0
  {
  }

  /** Turning too little to overshoot by as much. */
  lemma TurnIsSmall(error: real, rate: real, seconds: real)
    requires 0.0 < rate <= 1.5 * error && 0.0 < seconds < 4.0 / 3.0
    ensures 0.0 < rate * seconds < 2.0 * error
  {
    Positive(rate, seconds);
    Positive(error, 4.0 / 3.0 - seconds);
    assert error * (4.0 / 3.0 - seconds) == error * (4.0 / 3.0) - error * seconds;
    if rate < 1.5 * error {
      Positive(1.5 * error - rate, seconds);
      assert (1.5 * error - rate) * seconds == 1.5 * (error * seconds) - rate * seconds;
    } else {
      assert rate * seconds == 1.5 * (error * seconds);
    }
  }

  lemma OppositeTurn(rate: real, seconds: real)
    ensures (-rate) * seconds == -(rate * seconds)
  {
  }

  /** So for any time shorter than four thirds of a second, and a control period is much shorter, a robot that is off
      gets less so. */
  lemma HeadingErrorShrinks(limits: Limits, velocity: real, distance: real, bearing: real, yaw: real, ramp: real,
                            seconds: real)
    requires limits.maxYawRate > 0.0 && NormalizeAngle(bearing - yaw) != 0.0 && 0.0 < seconds < 4.0 / 3.0
    ensures var error := NormalizeAngle(bearing - yaw);
            var rate := Command(limits, velocity, distance, bearing, yaw, ramp).yawRate;
            Abs(AfterTurning(error, rate, seconds)) < Abs(error)
  {
    var error := NormalizeAngle(bearing - yaw);
    TurnsTowardTheBearing(limits, velocity, distance, bearing, yaw, ramp);
    var rate := Command(limits, velocity, distance, bearing, yaw, ramp).yawRate;
    OppositeTurn(rate, seconds);
    TurnIsSmall(Abs(error), Abs(rate), seconds);
  }

  /** Ahead it goes at the waypoint's speed, or at 0.8 per second of the distance left if that is less, times the ramp;
      and at a quarter of that while it looks more than the tolerance away, to either side. */
  lemma SpeedAheadExactly(limits: Limits, velocity: real, distance: real, bearing: real, yaw: real, ramp: real)
    requires distance >= 0.0
    ensures var off := NormalizeAngle(bearing - yaw);
            var speed := Command(limits, velocity, distance, bearing, yaw, ramp).vx;
            var right := -limits.headingTolerance <= off <= limits.headingTolerance;
            && (velocity <= 0.8 * distance && right ==> speed == velocity * ramp)
            && (velocity <= 0.8 * distance && !right ==> 4.0 * speed == velocity * ramp)
            && (velocity > 0.8 * distance && right ==> speed == 0.8 * distance * ramp)
            && (velocity > 0.8 * distance && !right ==> 4.0 * speed == 0.8 * distance * ramp)
  {
    assert Cruise(velocity, distance) == if velocity <= 0.8 * distance then velocity else 0.8 * distance;
  }

  /** The ramp lets the speed grow in proportion to the time since the resume, from nothing to all of it; then it is
      over. Without a ramp all of it is allowed. */
  lemma RampGrowsWithTime(rampAt: Option<real>, duration: real, now: real)
    requires rampAt.Some? ==> rampAt.value <= now
    ensures var (factor, left) := RampFactor(rampAt, duration, now);
            && (rampAt.Some? && now < rampAt.value + duration ==>
                  factor * duration == now - rampAt.value && left == rampAt)
            && (rampAt.None? || now >= rampAt.value + duration ==> factor == 1.0)
            && (duration > 0.0 && left.Some? ==> now < left.value + duration)
  {
    if rampAt.Some? && duration > 0.0 && now - rampAt.value < duration {
      var f := (now - rampAt.value) / duration;
      assert f * duration == now - rampAt.value;
    }
  }

  lemma LargerShare(x: real, y: real, part: real, whole: real)
    requires whole > 0.0 && x * whole == part && part <= y * whole
    ensures x <= y
  {
    if x > y {
      Positive(x - y, whole);
      assert false;
    }
  }

  /** Later is never slower. */
  lemma RampNeverFalls(rampAt: Option<real>, duration: real, now: real, later: real)
    requires rampAt.Some? ==> rampAt.value <= now
    requires now <= later
    ensures RampFactor(rampAt, duration, now).0 <= RampFactor(rampAt, duration, later).0
  {
    RampGrowsWithTime(rampAt, duration, now);
    RampGrowsWithTime(rampAt, duration, later);
    RampFactorRange(rampAt, duration, now);
    if rampAt.Some? && later < rampAt.value + duration {
      LargerShare(RampFactor(rampAt, duration, now).0, RampFactor(rampAt, duration, later).0,
                  now - rampAt.value, duration);
    }
  }
}
