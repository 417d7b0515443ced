/** The `Carro` object: its fields are reassigned in place every frame. */
module Vehicle {
  import opened Grid
  import opened Sensors
  import opened Dynamics

  class Car {
    var x: real
    var y: real
    /** `angulo`, in degrees; 0 points along +x and angles grow clockwise on screen. */
    var heading: real
    var vel: real
    /** `vivo` */
    var alive: bool
    /** `distancia` */
    var distance: real
    /** `lecturas`, one reading per entry of `Angles`. */
    var readings: seq<int>

    /** The car's fields as a value. */
    function State(): CarState
      reads this
    {
      CarState(x, y, heading, vel, alive, distance, readings)
    }

    ghost predicate Valid()
      reads this
    {
      Inv(State())
    }

    /** `Carro.__init__`, for the state fields (the sprite is not modelled). */
    constructor (x0: real, y0: real, heading0: real)
      ensures Valid()
      ensures State() == Spawn(x0, y0, heading0)
    {
      x, y := x0, y0;
      heading, vel := heading0, 0.0;
      alive, distance := true, 0.0;
      readings := seq(|Angles|, _ => Range);
    }

    /** `actualizar`: one frame under the controls `keys`. */
    method Update(keys: Keys, mask: seq<seq<bool>>, trig: Trig)
      requires Valid()
      modifies this
      ensures Valid()
      ensures State() == Tick(old(State()), keys, mask, trig)
    {
      if !alive {
        return;
      }
      ghost var s0 := State();
      vel := Throttle(vel, keys);
      heading := Steer(heading, vel, keys);
      var nx := TargetX(x, heading, vel, trig);
      var ny := TargetY(y, heading, vel, trig);
      var cx, cy := Trunc(nx), Trunc(ny);
      if 0 <= cy < |mask| && 0 <= cx < |mask[cy]| {
        if mask[cy][cx] {
          x, y := nx, ny;
          distance := distance + Abs(vel);
        } else {
          vel := vel * CrashPenalty;
          alive := false;
        }
      } else {
        alive := false;
      }
      ghost var a := Advance(s0, keys, mask, trig);
      assert State() == a;
      Sense(mask, trig);
      assert State() == a.(readings := Readings(mask, a.x, a.y, a.heading, trig));
      TickKeepsInv(old(State()), keys, mask, trig);
    }

    /** `_sensores`: march every ray from the current pose and store its reading. */
    method Sense(mask: seq<seq<bool>>, trig: Trig)
      requires |readings| == |Angles|
      modifies this`readings
      ensures readings == Readings(mask, x, y, heading, trig)
    {
      var out := readings;
      for i := 0 to |Angles|
        invariant |out| == |Angles|
        invariant forall j :: 0 <= j < i ==> out[j] == Reading(mask, x, y, heading + Angles[j] as real, trig)
      {
        var dist := March(mask, x, y, heading + Angles[i] as real, trig);
        out := out[i := dist];
      }
      readings := out;
    }

    /** `get_inputs_ia`: the readings scaled to `(0, 1]`. */
    function InputsAI(): (r: seq<real>)
      reads this
      ensures |r| == |readings|
      ensures forall i :: 0 <= i < |r| ==> r[i] * Range as real == readings[i] as real
      ensures Inv(State()) ==> |r| == |Angles| && forall i :: 0 <= i < |r| ==> 0.0 < r[i] <= 1.0
    {
      Normalise(readings)
    }

    /** `reiniciar`: back to the given pose, whatever the state before. */
    method Reset(x0: real, y0: real, heading0: real)
      modifies this
      ensures Valid()
      ensures State() == Spawn(x0, y0, heading0)
    {
      x, y := x0, y0;
      heading, vel := heading0, 0.0;
      alive, distance := true, 0.0;
      readings := seq(|Angles|, _ => Range);
    }
  }
}
