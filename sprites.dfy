/** The game's sprites: the planet, the meteors and the laser.

    A meteor's state is its integer mass, whether it is still a member of the
    meteor group (`alive`; pygame's `kill` removes it from every group), its
    centre and its velocity. MeteorView is that state as a value; the pure
    functions on it say what each method of the Meteor class does, and the
    lemmas say what follows over several frames. */
module Sprites {
  import opened Physics

  /** The planet's centre, fixed for the whole game. */
  const PLANET_CENTER: Vec := Vec(200.0, 200.0)

  /** The laser's power when none is given. */
  const DEFAULT_POWER: int := 1

  datatype MeteorView = MeteorView(mass: int, alive: bool, center: Vec, velocity: Vec)

  /** A meteor as created: the given mass, placed in its group, at rest. */
  function Spawned(mass: int, start: Vec): MeteorView {
    MeteorView(mass, true, start, Vec(0.0, 0.0))
  }

  /** calculate_acceleration: the velocity gains this frame's change. */
  function Accelerated(v: MeteorView, planet: Vec, trig: Angle -> Magnitudes): MeteorView
  {
    v.(velocity := v.velocity.Add(VelocityChange(v.center, planet, trig)))
  }

  /** update: accelerate, then move by the new velocity. */
  function Moved(v: MeteorView, planet: Vec, trig: Angle -> Magnitudes): MeteorView
  {
    var a := Accelerated(v, planet, trig);
    a.(center := a.center.Add(a.velocity))
  }

  /** reduce_mass: subtract the damage; leave the group once the mass is
      strictly negative. */
  function Damaged(v: MeteorView, damage: int): MeteorView {
    var mass := v.mass - damage;
    v.(mass := mass, alive := v.alive && !(mass < 0))
  }

  /** k successive calls of reduce_mass with the same damage. */
  function Hits(v: MeteorView, damage: int, k: nat): MeteorView {
    if k == 0 then v else Damaged(Hits(v, damage, k - 1), damage)
  }

  /** k successive calls of update. */
  function Updates(v: MeteorView, planet: Vec, trig: Angle -> Magnitudes, k: nat): MeteorView {
    if k == 0 then v else Moved(Updates(v, planet, trig, k - 1), planet, trig)
  }

  /** However many frames a meteor is updated, its mass and its group
      membership stay as they were: only the laser changes them. */
  lemma {:induction false} UpdatesKeepLife(v: MeteorView, planet: Vec, trig: Angle -> Magnitudes, k: nat)
    ensures Updates(v, planet, trig, k).mass == v.mass
    ensures Updates(v, planet, trig, k).alive == v.alive
  {
    if k > 0 {
      UpdatesKeepLife(v, planet, trig, k - 1);
    }
  }

  /** While a meteor stays right of the planet for k frames, its x velocity
      keeps what it had and only ever decreases, by at most ACCELERATION a
      frame: velocity accumulates and is never reset. */
  lemma {:induction false} RightOfPlanetSlows(v: MeteorView, planet: Vec, trig: Angle -> Magnitudes, k: nat)
    requires IsTrig(trig)
    requires forall i :: 0 <= i < k ==> Updates(v, planet, trig, i).center.x > planet.x
    ensures v.velocity.x - k as real * ACCELERATION <= Updates(v, planet, trig, k).velocity.x <= v.velocity.x
  {
    if k > 0 {
      RightOfPlanetSlows(v, planet, trig, k - 1);
      VelocityChangeSigns(Updates(v, planet, trig, k - 1).center, planet, trig);
    }
  }

  /** While a meteor stays at or left of the planet for k frames, its x
      velocity only ever increases, by at most ACCELERATION a frame. */
  lemma {:induction false} LeftOfPlanetSpeeds(v: MeteorView, planet: Vec, trig: Angle -> Magnitudes, k: nat)
    requires IsTrig(trig)
    requires forall i :: 0 <= i < k ==> Updates(v, planet, trig, i).center.x <= planet.x
    ensures v.velocity.x <= Updates(v, planet, trig, k).velocity.x <= v.velocity.x + k as real * ACCELERATION
  {
    if k > 0 {
      LeftOfPlanetSpeeds(v, planet, trig, k - 1);
      VelocityChangeSigns(Updates(v, planet, trig, k - 1).center, planet, trig);
    }
  }

  /** After k hits the mass has dropped by exactly k times the damage, and
      the centre and velocity are those before the hits. */
  lemma {:induction false} HitsMass(v: MeteorView, damage: int, k: nat)
    ensures Hits(v, damage, k).mass == v.mass - k * damage
    ensures Hits(v, damage, k).center == v.center
    ensures Hits(v, damage, k).velocity == v.velocity
  {
    if k > 0 {
      HitsMass(v, damage, k - 1);
    }
  }

  /** A meteor that has left its group never returns to it, whatever the
      damage. */
  lemma {:induction false} HitsKeepDead(v: MeteorView, damage: int, k: nat)
    requires !v.alive
    ensures !Hits(v, damage, k).alive
  {
    if k > 0 {
      HitsKeepDead(v, damage, k - 1);
    }
  }

  /** Under non-negative damage a meteor is still in its group after k >= 1
      hits exactly when it was before and its mass after the k hits is not
      negative; in particular the mass never increases. */
  lemma {:induction false} HitsAlive(v: MeteorView, damage: int, k: nat)
    requires damage >= 0 && k >= 1
    ensures Hits(v, damage, k).alive <==> v.alive && v.mass - k * damage >= 0
    ensures Hits(v, damage, k).mass <= v.mass
  {
    HitsMass(v, damage, k);
    if k > 1 {
      HitsAlive(v, damage, k - 1);
      HitsMass(v, damage, k - 1);
      assert k * damage == (k - 1) * damage + damage;
    }
  }

  /** Under a laser of the default power, a meteor created with mass m >= 0
      survives m hits and leaves the group on hit m + 1; a mass of exactly
      0 survives. */
  lemma SurvivesExactly(m: nat, start: Vec)
    ensures Hits(Spawned(m, start), DEFAULT_POWER, m).alive
    ensures Hits(Spawned(m, start), DEFAULT_POWER, m).mass == 0
    ensures !Hits(Spawned(m, start), DEFAULT_POWER, m + 1).alive
  {
    if m > 0 {
      HitsAlive(Spawned(m, start), DEFAULT_POWER, m);
    }
    HitsAlive(Spawned(m, start), DEFAULT_POWER, m + 1);
  }

  /** A meteor still in its group after a hit has a mass that is not
      negative. */
  lemma DamagedInPlay(v: MeteorView, damage: int)
    ensures Damaged(v, damage).alive ==> Damaged(v, damage).mass >= 0
  {
  }

  /** reduce_mass(0) removes a meteor only if its mass was already negative. */
  lemma ZeroDamage(v: MeteorView)
    ensures Damaged(v, 0).mass == v.mass
    ensures Damaged(v, 0).alive <==> v.alive && v.mass >= 0
  {
  }

  /** The planet does not move. */
  class Planet {
    const center: Vec

    constructor ()
      ensures center == PLANET_CENTER
    {
      center := PLANET_CENTER;
    }
  }

  class Meteor {
    var mass: int
    var alive: bool
    var center: Vec
    var velocity: Vec

    function View(): MeteorView
      reads this
    {
      MeteorView(mass, alive, center, velocity)
    }

    /** Meteor(mass, group): joins the group at rest at the given start. */
    constructor (mass: int, start: Vec)
      ensures View() == Spawned(mass, start)
    {
      this.mass := mass;
      alive := true;
      center := start;
      velocity := Vec(0.0, 0.0);
    }

    /** Each velocity component is decreased when the meteor lies beyond the
        planet on that axis and increased otherwise; the y test reads the
        planet's x coordinate, as the source does. */
    method CalculateAcceleration(planet: Planet, trig: Angle -> Magnitudes)
      modifies this
      ensures View() == Accelerated(old(View()), planet.center, trig)
    {
      var angle := AngleOf(center, planet.center);
      var m := trig(angle);
      if center.x > planet.center.x {
        velocity := velocity.(x := velocity.x - m.opposite);
      } else {
        velocity := velocity.(x := velocity.x + m.opposite);
      }
      // compared with the planet's x coordinate, as written in the source
      if center.y > planet.center.x {
        velocity := velocity.(y := velocity.y - m.adjacent);
      } else {
        velocity := velocity.(y := velocity.y + m.adjacent);
      }
    }

    method Update(planet: Planet, trig: Angle -> Magnitudes)
      modifies this
      ensures View() == Moved(old(View()), planet.center, trig)
    {
      CalculateAcceleration(planet, trig);
      center := center.Add(velocity);
    }

    method ReduceMass(damage: int)
      modifies this
      ensures View() == Damaged(old(View()), damage)
    {
      mass := mass - damage;
      if mass < 0 {
        alive := false;
      }
    }
  }

  /** The laser: its power is set once and never changes. */
  class Laser {
    const power: int

    constructor (power: int := DEFAULT_POWER)
      ensures this.power == power
    {
      this.power := power;
    }

    method Damage(meteor: Meteor)
      modifies meteor
      ensures meteor.View() == Damaged(old(meteor.View()), power)
    {
      meteor.ReduceMass(power);
    }
  }
}
