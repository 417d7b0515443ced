/** The sensor array: five rays marched outward from the car at unit steps. */
module Sensors {
  import opened Grid

  /** `LARGO_SENSOR`: the range of every sensor, in pixels. */
  const Range: int := 130

  /** `ANGULOS_SENSOR`: the ray offsets, in degrees, relative to the heading. */
  const Angles: seq<int> := [-90, -45, 0, 45, 90]

  /** `cos(radians(a))` and `sin(radians(a))` for an angle `a` in degrees, as the host's
      math library computes them. Nothing is assumed about either function. */
  datatype Trig = Trig(cosDeg: real -> real, sinDeg: real -> real)

  /** The sample `d` pixels along the ray with direction `(c, s)` from `(x, y)` is
      outside the grid or on a non-drivable cell. */
  predicate Obstructed(mask: seq<seq<bool>>, x: real, y: real, c: real, s: real, d: int)
  {
    !Drivable(mask, Cell(x, c, d), Cell(y, s, d))
  }

  /** The cell coordinate `d` pixels along a ray from coordinate `p` with direction component `c`. */
  function Cell(p: real, c: real, d: int): int
  {
    Trunc(p + c * d as real)
  }

  /** The distance the ray reports when marching resumes at step `d`: the first
      obstructed step from `d` on, or `Range` when none of `d..Range` is obstructed. */
  function ScanFrom(mask: seq<seq<bool>>, x: real, y: real, c: real, s: real, d: int): (r: int)
    requires 1 <= d <= Range + 1
    ensures r <= Range
    ensures d <= Range ==> d <= r
    decreases Range + 1 - d
  {
    if d > Range then Range
    else if Obstructed(mask, x, y, c, s, d) then d
    else ScanFrom(mask, x, y, c, s, d + 1)
  }

  /** The reading of one ray cast from `(x, y)` along `heading` degrees. */
  function Reading(mask: seq<seq<bool>>, x: real, y: real, heading: real, trig: Trig): int
  {
    ScanFrom(mask, x, y, trig.cosDeg(heading), trig.sinDeg(heading), 1)
  }

  /** The readings of all sensors of a car at `(x, y)` facing `heading` degrees,
      in the order of `Angles`. */
  function Readings(mask: seq<seq<bool>>, x: real, y: real, heading: real, trig: Trig): (r: seq<int>)
    ensures |r| == |Angles|
    ensures forall i :: 0 <= i < |r| ==> 1 <= r[i] <= Range
  {
    seq(|Angles|, i requires 0 <= i < |Angles| => Reading(mask, x, y, heading + Angles[i] as real, trig))
  }

  /** Every reading lies in `[1, Range]`. */
  predicate ValidReadings(readings: seq<int>)
  {
    |readings| == |Angles| && forall i :: 0 <= i < |readings| ==> 1 <= readings[i] <= Range
  }

  /** The march resumed at step `d` reports the first obstructed step in `d..Range-1`,
      and `Range` exactly when no step in `d..Range-1` is obstructed (an obstruction
      at step `Range` itself reads the same as none). */
  lemma {:induction false} ScanFromIsFirstObstruction(mask: seq<seq<bool>>, x: real, y: real, c: real, s: real, d: int)
    requires 1 <= d <= Range + 1
    ensures var r := ScanFrom(mask, x, y, c, s, d);
      (forall k :: d <= k < r ==> !Obstructed(mask, x, y, c, s, k)) &&
      (r < Range ==> Obstructed(mask, x, y, c, s, r)) &&
      (r == Range <==> forall k :: d <= k < Range ==> !Obstructed(mask, x, y, c, s, k))
    decreases Range + 1 - d
  {
    if d <= Range && !Obstructed(mask, x, y, c, s, d) {
      ScanFromIsFirstObstruction(mask, x, y, c, s, d + 1);
    }
  }

  /** A ray's reading is the first step `d` in `1..Range` whose sample is out of the grid
      or not drivable, and `Range` when there is no such step before `Range`. */
  lemma ReadingIsFirstObstruction(mask: seq<seq<bool>>, x: real, y: real, heading: real, trig: Trig)
    ensures var c, s, r := trig.cosDeg(heading), trig.sinDeg(heading), Reading(mask, x, y, heading, trig);
      1 <= r <= Range &&
      (forall k :: 1 <= k < r ==> !Obstructed(mask, x, y, c, s, k)) &&
      (r < Range ==> Obstructed(mask, x, y, c, s, r)) &&
      (r == Range <==> forall k :: 1 <= k < Range ==> !Obstructed(mask, x, y, c, s, k))
  {
    ScanFromIsFirstObstruction(mask, x, y, trig.cosDeg(heading), trig.sinDeg(heading), 1);
  }

  /** The inner loop of `_sensores`: march one ray at unit steps and stop at the first
      sample outside the grid or off the track. */
  method March(mask: seq<seq<bool>>, x: real, y: real, ray: real, trig: Trig) returns (dist: int)
    ensures dist == Reading(mask, x, y, ray, trig)
  {
    var c, s := trig.cosDeg(ray), trig.sinDeg(ray);
    dist := Range;
    for d := 1 to Range + 1
      invariant ScanFrom(mask, x, y, c, s, d) == ScanFrom(mask, x, y, c, s, 1)
    {
      var px := Cell(x, c, d);
      var py := Cell(y, s, d);
      if !(0 <= py < |mask| && 0 <= px < |mask[py]|) {
        dist := d;
        break;
      }
      if !mask[py][px] {
        dist := d;
        break;
      }
    }
  }

  /** `get_inputs_ia`: each reading divided by the range. */
  function Normalise(readings: seq<int>): (r: seq<real>)
    ensures |r| == |readings|
    ensures forall i :: 0 <= i < |r| ==> r[i] * Range as real == readings[i] as real
    ensures ValidReadings(readings) ==> forall i :: 0 <= i < |r| ==> 0.0 < r[i] <= 1.0
  {
    seq(|readings|, i requires 0 <= i < |readings| => readings[i] as real / Range as real)
  }

  /** The readings of a freshly reset car, all at full range, normalise to all ones. */
  lemma NormaliseFullRange()
    ensures Normalise(seq(|Angles|, _ => Range)) == seq(|Angles|, _ => 1.0)
  {
  }
}
