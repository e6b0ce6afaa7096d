/** The attraction rule of Planet Protector: how a meteor's velocity changes
    each frame, decided by comparing the meteor's centre with the planet's.

    The source computes an angle with atan, sin and cos in floating point.
    Here the angle is computed up to the trigonometry (the special case that
    avoids a division by zero, and the ratio passed to atan), and the two
    magnitudes |sin(angle)| * ACCELERATION and |cos(angle)| * ACCELERATION are
    supplied by an abstract function `trig` constrained by IsTrig. */
module Physics {

  /** Magnitude of the acceleration applied in one frame. */
  const ACCELERATION: real := 0.1

  /** A point or a velocity in screen coordinates (y grows downwards). */
  datatype Vec = Vec(x: real, y: real) {
    function Add(v: Vec): Vec {
      Vec(x + v.x, y + v.y)
    }
  }

  /** The angle of the line from the planet to the meteor, before any
      trigonometric function is applied to it. */
  datatype Angle =
    | HalfPi(positive: bool)  // the meteor is level with the planet: +pi/2 or -pi/2
    | ArcTan(ratio: real)     // atan(dx / dy) with dy nonzero

  /** The two components of the acceleration: `opposite` is applied to the
      x velocity, `adjacent` to the y velocity. */
  datatype Magnitudes = Magnitudes(opposite: real, adjacent: real)

  /** What the model relies on about the floating-point trigonometry:
      |sin| and |cos| lie in [0, 1], so both magnitudes lie in
      [0, ACCELERATION]; |sin(+-pi/2)| is exactly 1; and atan(0) is 0, whose
      sine is 0 and cosine 1. */
  ghost predicate IsTrig(trig: Angle -> Magnitudes) {
    (forall a ::
       0.0 <= trig(a).opposite <= ACCELERATION && 0.0 <= trig(a).adjacent <= ACCELERATION)
    && trig(HalfPi(true)).opposite == ACCELERATION
    && trig(HalfPi(false)).opposite == ACCELERATION
    && trig(ArcTan(0.0)) == Magnitudes(0.0, ACCELERATION)
  }

  /** The angle chosen by calculate_acceleration, up to atan: a right angle
      when the meteor is level with the planet, otherwise the horizontal
      offset over the vertical one. */
  function AngleOf(center: Vec, planet: Vec): Angle {
    if center.y == planet.y then
      HalfPi(center.x < planet.x)
    else
      ArcTan((center.x - planet.x) / (center.y - planet.y))
  }

  /** The quotient is formed only when the vertical offset is nonzero: a
      meteor level with the planet gets +pi/2 when left of it and -pi/2
      otherwise, any other meteor the ratio of its offsets. */
  lemma AngleOfGuard(center: Vec, planet: Vec)
    ensures AngleOf(center, planet).HalfPi? <==> center.y == planet.y
    ensures AngleOf(center, planet).HalfPi? ==>
              (AngleOf(center, planet).positive <==> center.x < planet.x)
    ensures AngleOf(center, planet).ArcTan? ==>
              AngleOf(center, planet).ratio * (center.y - planet.y) == center.x - planet.x
  {
  }

  /** The change calculate_acceleration makes to the velocity in one frame:
      each component is decreased by its magnitude when the meteor lies
      beyond the planet on that axis and increased otherwise. The y test
      compares the meteor's y coordinate with the planet's x coordinate,
      as the source does (a likely slip for the planet's y coordinate; see
      YRuleOnDiagonal and YRuleDefectWitness). */
  function VelocityChange(center: Vec, planet: Vec, trig: Angle -> Magnitudes): Vec {
    var m := trig(AngleOf(center, planet));
    Vec(if center.x > planet.x then -m.opposite else m.opposite,
        if center.y > planet.x then -m.adjacent else m.adjacent)
  }

  /** The x velocity never grows while the meteor is right of the planet
      and never shrinks otherwise, by at most ACCELERATION either way; the
      y velocity likewise, measured against the planet's x coordinate. */
  lemma VelocityChangeSigns(center: Vec, planet: Vec, trig: Angle -> Magnitudes)
    requires IsTrig(trig)
    ensures var dv := VelocityChange(center, planet, trig);
            (center.x > planet.x ==> -ACCELERATION <= dv.x <= 0.0) &&
            (center.x <= planet.x ==> 0.0 <= dv.x <= ACCELERATION) &&
            (center.y > planet.x ==> -ACCELERATION <= dv.y <= 0.0) &&
            (center.y <= planet.x ==> 0.0 <= dv.y <= ACCELERATION)
  {
  }

  /** A meteor level with the planet is pulled horizontally with the full
      acceleration, towards the planet (rightwards when on the planet's
      vertical line too). */
  lemma LevelWithPlanet(center: Vec, planet: Vec, trig: Angle -> Magnitudes)
    requires IsTrig(trig) && center.y == planet.y
    ensures VelocityChange(center, planet, trig).x
            == if center.x > planet.x then -ACCELERATION else ACCELERATION
  {
  }

  /** A meteor straight above or below the planet gets no horizontal pull and
      the full vertical one, whose sign follows the as-written y test. */
  lemma InLineWithPlanet(center: Vec, planet: Vec, trig: Angle -> Magnitudes)
    requires IsTrig(trig) && center.x == planet.x && center.y != planet.y
    ensures VelocityChange(center, planet, trig).x == 0.0
    ensures VelocityChange(center, planet, trig).y
            == if center.y > planet.x then -ACCELERATION else ACCELERATION
  {
    assert AngleOf(center, planet) == ArcTan(0.0);
  }

  /** When the planet lies on the diagonal x == y (as the game's planet at
      (200, 200) does), the as-written y test coincides with the evident
      intent: the vertical pull points towards the planet. */
  lemma YRuleOnDiagonal(center: Vec, planet: Vec, trig: Angle -> Magnitudes)
    requires IsTrig(trig) && planet.x == planet.y
    ensures center.y > planet.y ==> VelocityChange(center, planet, trig).y <= 0.0
    ensures center.y < planet.y ==> VelocityChange(center, planet, trig).y >= 0.0
  {
  }

  /** Off the diagonal the as-written y test can push a meteor away from the
      planet: a meteor 50 units below a planet at (300, 200), on its vertical
      line, is accelerated further downwards with the full acceleration. */
  lemma YRuleDefectWitness(trig: Angle -> Magnitudes)
    requires IsTrig(trig)
    ensures var center, planet := Vec(300.0, 250.0), Vec(300.0, 200.0);
            center.y > planet.y && VelocityChange(center, planet, trig).y == ACCELERATION
  {
  }
}
