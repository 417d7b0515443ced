/** Vehicle dynamics as a transition function on the car's state: one call of `Tick`
    is one frame of `Carro.actualizar`. The class `Vehicle.Car` is proved to update its
    fields exactly as `Tick` says. */
module Dynamics {
  import opened Grid
  import opened Sensors

  /** `ACELERACION`, added to the velocity while accelerating. */
  const Acceleration: real := 0.18
  /** `FRENADO`, taken from the velocity while braking. */
  const Braking: real := 0.22
  /** `FRICCION`, the factor applied to the velocity every live frame. */
  const Friction: real := 0.96
  /** `VELOCIDAD_MAX`, the forward velocity cap. */
  const MaxSpeed: real := 5.5
  /** The reverse velocity cap. */
  const MinSpeed: real := -2.0
  /** `VELOCIDAD_GIRO`, the turn in degrees per frame at full speed. */
  const TurnRate: real := 3.2
  /** The factor applied to the velocity when the car runs onto a non-drivable cell. */
  const CrashPenalty: real := 0.4

  /** The lowest and highest velocity a car can have after any frame. */
  const LowestVel: real := MinSpeed * Friction
  const HighestVel: real := MaxSpeed * Friction

  /** The four controls read from the keyboard in one frame. */
  datatype Keys = Keys(accelerate: bool, brake: bool, left: bool, right: bool)

  /** The state of a `Carro`: position, heading in degrees, signed velocity, alive flag,
      distance travelled and the sensor readings (`lecturas`). */
  datatype CarState = CarState(
    x: real, y: real, heading: real, vel: real,
    alive: bool, distance: real, readings: seq<int>)

  function Abs(v: real): real
  {
    if v < 0.0 then -v else v
  }

  /** The invariant every reachable state keeps: five readings in `[1, Range]`, a velocity
      within what clamping and friction allow, and a non-negative distance. */
  predicate Inv(s: CarState)
  {
    ValidReadings(s.readings) &&
    LowestVel <= s.vel <= HighestVel &&
    s.distance >= 0.0
  }

  /** The velocity after the controls, the clamp to `[MinSpeed, MaxSpeed]` and friction. */
  function Throttle(vel: real, keys: Keys): real
  {
    var v1 := if keys.accelerate then vel + Acceleration else vel;
    var v2 := if keys.brake then v1 - Braking else v1;
    var v3 := if v2 > MaxSpeed then MaxSpeed else if v2 < MinSpeed then MinSpeed else v2;
    v3 * Friction
  }

  /** The heading after steering at velocity `v`; the turn is proportional to the speed. */
  function Steer(heading: real, v: real, keys: Keys): real
  {
    var turn := (Abs(v) / MaxSpeed) * TurnRate;
    var h1 := if keys.left then heading - turn else heading;
    if keys.right then h1 + turn else h1
  }

  /** The candidate position, `v` pixels from `(x, y)` along `heading`. */
  function TargetX(x: real, heading: real, v: real, trig: Trig): real
  {
    x + trig.cosDeg(heading) * v
  }

  function TargetY(y: real, heading: real, v: real, trig: Trig): real
  {
    y + trig.sinDeg(heading) * v
  }

  /** The physics of one live frame, before the sensors are refreshed: new velocity and
      heading, then either the move to the candidate position or the crash. */
  function Advance(s: CarState, keys: Keys, mask: seq<seq<bool>>, trig: Trig): CarState
  {
    var v := Throttle(s.vel, keys);
    var h := Steer(s.heading, v, keys);
    var nx := TargetX(s.x, h, v, trig);
    var ny := TargetY(s.y, h, v, trig);
    var cx, cy := Trunc(nx), Trunc(ny);
    if InBounds(mask, cx, cy) then
      if mask[cy][cx] then
        s.(x := nx, y := ny, heading := h, vel := v, distance := s.distance + Abs(v))
      else
        s.(heading := h, vel := v * CrashPenalty, alive := false)
    else
      s.(heading := h, vel := v, alive := false)
  }

  /** One frame of `Carro.actualizar` (sprite rotation aside): nothing for a crashed car;
      otherwise the physics, then the sensors from the resulting pose. */
  function Tick(s: CarState, keys: Keys, mask: seq<seq<bool>>, trig: Trig): CarState
  {
    if !s.alive then s
    else
      var m := Advance(s, keys, mask, trig);
      m.(readings := Readings(mask, m.x, m.y, m.heading, trig))
  }

  /** Clamping and friction keep the velocity in `[-1.92, 5.28]`; with no pedal pressed
      friction never increases the speed, and inside the clamp window it only scales it. */
  lemma ThrottleBounds(vel: real, keys: Keys)
    ensures LowestVel <= Throttle(vel, keys) <= HighestVel
    ensures LowestVel == -1.92 && HighestVel == 5.28
    ensures !keys.accelerate && !keys.brake ==> Abs(Throttle(vel, keys)) <= Abs(vel)
    ensures !keys.accelerate && !keys.brake && MinSpeed <= vel <= MaxSpeed ==>
      Throttle(vel, keys) == vel * Friction
  {
  }

  /** The turn is `|v| / MaxSpeed * TurnRate` degrees: none at zero speed, none when both or
      neither steering key is held, left subtracts and right adds. */
  lemma SteerTurn(heading: real, v: real, keys: Keys)
    ensures v == 0.0 ==> Steer(heading, v, keys) == heading
    ensures keys.left == keys.right ==> Steer(heading, v, keys) == heading
    ensures keys.left && !keys.right ==> Steer(heading, v, keys) == heading - Abs(v) / MaxSpeed * TurnRate
    ensures keys.right && !keys.left ==> Steer(heading, v, keys) == heading + Abs(v) / MaxSpeed * TurnRate
    ensures 0.0 <= Abs(v) / MaxSpeed * TurnRate
  {
  }

  /** A crashed car is frozen: a frame changes nothing, not even the readings. */
  lemma CrashedFrameIsNoOp(s: CarState, keys: Keys, mask: seq<seq<bool>>, trig: Trig)
    requires !s.alive
    ensures Tick(s, keys, mask, trig) == s
  {
  }

  /** A live car survives a frame exactly when the candidate position, truncated toward
      zero, is a drivable cell inside the grid; it then moves there and its distance grows
      by its speed. Otherwise it keeps its position and distance and is marked crashed. */
  lemma LiveFrameMoveOrCrash(s: CarState, keys: Keys, mask: seq<seq<bool>>, trig: Trig)
    requires s.alive
    ensures var r, v := Tick(s, keys, mask, trig), Throttle(s.vel, keys);
      var h := Steer(s.heading, v, keys);
      var nx, ny := TargetX(s.x, h, v, trig), TargetY(s.y, h, v, trig);
      r.heading == h &&
      (r.alive <==> PointDrivable(mask, nx, ny)) &&
      (r.alive ==> r.x == nx && r.y == ny && r.vel == v && r.distance == s.distance + Abs(v)) &&
      (!r.alive ==> r.x == s.x && r.y == s.y && r.distance == s.distance) &&
      (!r.alive && InBounds(mask, Trunc(nx), Trunc(ny)) ==> r.vel == v * CrashPenalty) &&
      (!InBounds(mask, Trunc(nx), Trunc(ny)) ==> r.vel == v)
  {
  }

  /** The sensors are recomputed from the car's final pose on every live frame, the crash
      frame included. */
  lemma LiveFrameRefreshesSensors(s: CarState, keys: Keys, mask: seq<seq<bool>>, trig: Trig)
    requires s.alive
    ensures var r := Tick(s, keys, mask, trig);
      r.readings == Readings(mask, r.x, r.y, r.heading, trig) && ValidReadings(r.readings)
  {
  }

  /** One frame keeps the invariant and never decreases the distance. */
  lemma TickKeepsInv(s: CarState, keys: Keys, mask: seq<seq<bool>>, trig: Trig)
    requires Inv(s)
    ensures Inv(Tick(s, keys, mask, trig))
    ensures Tick(s, keys, mask, trig).distance >= s.distance
  {
    ThrottleBounds(s.vel, keys);
  }

  /** `reiniciar` (and the state fields set by `__init__`): the car at the given pose,
      standing, alive, with no distance and every sensor at full range. */
  function Spawn(x: real, y: real, heading: real): (r: CarState)
    ensures Inv(r) && r.alive
    ensures Normalise(r.readings) == seq(|Angles|, _ => 1.0)
  {
    NormaliseFullRange();
    CarState(x, y, heading, 0.0, true, 0.0, seq(|Angles|, _ => Range))
  }

  /** The state after one frame per entry of `frames`, in order. */
  function Run(s: CarState, frames: seq<Keys>, mask: seq<seq<bool>>, trig: Trig): CarState
    decreases |frames|
  {
    if frames == [] then s else Run(Tick(s, frames[0], mask, trig), frames[1..], mask, trig)
  }

  /** No frame brings a crashed car back: only a reset does. */
  lemma {:induction false} CrashedStaysCrashed(s: CarState, frames: seq<Keys>, mask: seq<seq<bool>>, trig: Trig)
    requires !s.alive
    ensures Run(s, frames, mask, trig) == s
    decreases |frames|
  {
    if frames != [] {
      CrashedStaysCrashed(Tick(s, frames[0], mask, trig), frames[1..], mask, trig);
    }
  }

  /** A car alive after a run was alive after every prefix of it. */
  lemma {:induction false} AliveThroughout(s: CarState, frames: seq<Keys>, mask: seq<seq<bool>>, trig: Trig, j: nat)
    requires j <= |frames|
    requires Run(s, frames, mask, trig).alive
    ensures Run(s, frames[..j], mask, trig).alive
    decreases |frames|
  {
    if !s.alive {
      CrashedStaysCrashed(s, frames, mask, trig);
    } else if j > 0 {
      assert frames[..j][1..] == frames[1..][..j - 1];
      AliveThroughout(Tick(s, frames[0], mask, trig), frames[1..], mask, trig, j - 1);
    }
  }

  /** The distance travelled never decreases over a run. */
  lemma {:induction false} DistanceNeverDecreases(s: CarState, frames: seq<Keys>, mask: seq<seq<bool>>, trig: Trig)
    ensures Run(s, frames, mask, trig).distance >= s.distance
    decreases |frames|
  {
    if frames != [] {
      var t := Tick(s, frames[0], mask, trig);
      assert t.distance >= s.distance by {
        if s.alive { LiveFrameMoveOrCrash(s, frames[0], mask, trig); }
      }
      DistanceNeverDecreases(t, frames[1..], mask, trig);
    }
  }

  /** Every state reached from a reset, by any frames, keeps the invariant: readings in
      `[1, Range]`, velocity in `[LowestVel, HighestVel]`, distance non-negative. */
  lemma {:induction false} RunKeepsInv(s: CarState, frames: seq<Keys>, mask: seq<seq<bool>>, trig: Trig)
    requires Inv(s)
    ensures Inv(Run(s, frames, mask, trig))
    decreases |frames|
  {
    if frames != [] {
      TickKeepsInv(s, frames[0], mask, trig);
      RunKeepsInv(Tick(s, frames[0], mask, trig), frames[1..], mask, trig);
    }
  }
}
