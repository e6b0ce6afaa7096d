# Planet Protector: the meteor physics and the main loop, in Dafny

Planet Protector is a small pygame arcade game. A planet sits fixed at
(200, 200). Meteors spawn on a circle around it and are pulled towards it,
and an automatic laser hits every meteor once per frame. This project
models the core of the first iteration of the game,
`planet_protector/planet_protector.py`. It covers these parts:

- **Attraction rule** (`physics.dfy`, module `Physics`). This is how
  `Meteor.calculate_acceleration` changes a meteor's velocity each frame:
  - It picks the angle, with a special case for a meteor level with the
    planet that avoids dividing by zero.
  - It applies |sin| and |cos| of that angle, scaled by `ACCELERATION` (0.1),
    to the x and y velocities.
  - The sign of each component comes from comparing the meteor with the
    planet on that axis.
  - The y test compares the meteor's `centery` with the planet's
    *`centerx`*. The model keeps it as written. `YRuleOnDiagonal` shows that
    it is harmless for the game's planet, which lies on the diagonal x == y.
    `YRuleDefectWitness` shows that it pushes a meteor away from a planet
    off that diagonal.
- **Sprites** (`sprites.dfy`, module `Sprites`). These are the `Planet`,
  `Meteor` and `Laser` classes as Dafny classes. Their methods update the
  fields in place.
  - `MeteorView` is a meteor's state as a value: its mass, whether it is
    still in its group, its centre and its velocity.
  - The functions `Spawned`, `Accelerated`, `Moved`, `Damaged` and `Hits`
    say what the constructor and each method do to that state. `Updates`
    iterates `Moved` over k frames.
  - The lemmas cover the lifecycle: what k hits of the laser do, and when a
    meteor leaves its group.
- **Main loop** (`main_loop.dfy`, module `MainLoop`). This is the body of
  `main`'s `while True` loop, with drawing, event polling and the frame
  clock removed.
  - If the meteor group is empty, a meteor of mass 50 is spawned into it.
  - Then every meteor of the group is updated and hit once by the laser.
  - A meteor whose mass drops below zero is killed, which removes it from
    the group.
  - `Game.Tick` is proved against the value-level `TickSpec`.
  - The masses of the group over many frames are followed by `Run`. Under
    the default laser they repeat with a period of 51 frames.

Positions and velocities are exact reals. The trigonometry is a parameter
`trig: Angle -> Magnitudes`. `IsTrig` constrains it:
- both magnitudes lie in [0, 0.1];
- |sin(±π/2)| is exactly 1;
- atan(0) = 0 gives the magnitudes (0, 0.1).

Where the game draws a random start point, the model takes it as a
parameter.

Points where the behaviour follows the code rather than a plain reading of
the game's description:
- The y-axis comparison uses the planet's x coordinate, as written
  (`Physics.VelocityChange`).
- A meteor is removed when its mass is strictly below 0. A mass of exactly 0
  survives.
- The code has no separate destruction threshold: the threshold is 0.
- `reduce_mass(0)` removes a meteor whose mass was already negative. It
  cannot remove a meteor that was in the group, because such a meteor never
  has a negative mass (`Sprites.ZeroDamage`, `MainLoop.Game.Valid`).
- For a meteor level with the planet, the y change is |cos(±π/2)| × 0.1.
  In floating point this is a tiny positive number, not 0. The model bounds
  it in [0, 0.1] and does not claim it is zero.

## Model

| member | source | states |
|---|---|---|
| Physics.AngleOfGuard | planet_protector/planet_protector.py:88-94 | The angle is the special right angle exactly when the meteor's y equals the planet's y. It is +π/2 exactly when the meteor is left of the planet. Otherwise it is the ratio of the x offset to the nonzero y offset, so no division by zero happens. |
| Physics.VelocityChangeSigns | planet_protector/planet_protector.py:95-105 | Right of the planet, the x velocity drops by between 0 and 0.1; otherwise it rises by between 0 and 0.1. The y velocity does the same, decided by comparing the meteor's y with the planet's x. |
| Physics.LevelWithPlanet | planet_protector/planet_protector.py:88-100 | A meteor level with the planet gets an x change of exactly -0.1 when right of it and +0.1 otherwise. |
| Physics.InLineWithPlanet | planet_protector/planet_protector.py:94-105 | A meteor straight above or below the planet gets an x change of 0. Its y change is ∓0.1, signed by the as-written y test. |
| Physics.YRuleOnDiagonal | planet_protector/planet_protector.py:102-105 | When the planet's x equals its y (as at (200, 200)), the y change points towards the planet: not positive below it, not negative above it. |
| Physics.YRuleDefectWitness | planet_protector/planet_protector.py:102-105 | With the planet at (300, 200), a meteor at (300, 250), which is below the planet, is accelerated downwards by +0.1, away from the planet. |
| Sprites.Planet.constructor | planet_protector/planet_protector.py:37-42 | The planet's centre is (200, 200). |
| Sprites.Meteor.constructor | planet_protector/planet_protector.py:59-68 | A new meteor has the given mass, is in its group, sits at the start point and has zero velocity. |
| Sprites.Meteor.CalculateAcceleration | planet_protector/planet_protector.py:86-105 | The velocity becomes the old velocity plus VelocityChange. Mass, membership and centre are unchanged. |
| Sprites.Meteor.Update | planet_protector/planet_protector.py:81-84 | The velocity is accelerated first. The centre then moves by the new velocity. |
| Sprites.Meteor.ReduceMass | planet_protector/planet_protector.py:107-110 | The mass drops by exactly the damage. The meteor leaves its group iff the new mass is negative. Centre and velocity are unchanged. |
| Sprites.Laser.constructor | planet_protector/planet_protector.py:116-119 | The laser's power is the one given, 1 by default. |
| Sprites.Laser.Damage | planet_protector/planet_protector.py:125-126 | The meteor is reduced by the laser's power. The laser's power is a constant and does not change. |
| Sprites.UpdatesKeepLife | planet_protector/planet_protector.py:81-84 | However many frames a meteor is updated, its mass and its group membership are unchanged. |
| Sprites.RightOfPlanetSlows | planet_protector/planet_protector.py:81-100 | While a meteor stays right of the planet for k frames, its x velocity never rises above its old value and falls by at most k·0.1: the velocity accumulates across frames and is never reset. |
| Sprites.LeftOfPlanetSpeeds | planet_protector/planet_protector.py:81-100 | While a meteor stays at or left of the planet for k frames, its x velocity never falls below its old value and rises by at most k·0.1. |
| Sprites.HitsMass | planet_protector/planet_protector.py:107-110 | After k hits of damage d, the mass is the old mass minus k·d. Centre and velocity are unchanged. |
| Sprites.HitsKeepDead | planet_protector/planet_protector.py:107-110 | A meteor that left its group stays out of it, whatever hits follow. |
| Sprites.HitsAlive | planet_protector/planet_protector.py:107-110 | For k ≥ 1 and d ≥ 0, the meteor is still in its group after k hits iff it was in it before and the old mass minus k·d is not negative. The mass never grows. |
| Sprites.SurvivesExactly | planet_protector/planet_protector.py:107-110 | Under the default power, a meteor of mass m ≥ 0 is still in its group with mass 0 after m hits. It has left the group after m + 1 hits. |
| Sprites.DamagedInPlay | planet_protector/planet_protector.py:107-110 | A meteor still in its group after a hit has a mass that is not negative. |
| Sprites.ZeroDamage | planet_protector/planet_protector.py:107-110 | A hit of 0 keeps the mass. It removes the meteor iff the mass was already negative. |
| MainLoop.StepLife | planet_protector/planet_protector.py:151-155 | Over one frame the mass drops by the laser's power. The meteor stays in the group iff it was there and the new mass is not negative. |
| MainLoop.Survivors | planet_protector/planet_protector.py:151-155 | The surviving meteors are no more than the group held, and every one of them is still in the group. |
| MainLoop.SurvivorsFilter | planet_protector/planet_protector.py:151-155 | A meteor is among the survivors iff it was in the group and is still alive after its hit: the kill removes exactly the meteors whose mass went below 0, and nothing else. |
| MainLoop.SurvivorsInPlay | planet_protector/planet_protector.py:151-155 | If every living meteor has a mass that is not negative, so does every survivor. |
| MainLoop.StepAllInPlay | planet_protector/planet_protector.py:151-155 | After a frame, every meteor left in the group has a mass that is not negative. |
| MainLoop.HitAll | planet_protector/planet_protector.py:151-155 | One hit on every mass keeps at most as many masses, all of them not negative. |
| MainLoop.HitAllFilter | planet_protector/planet_protector.py:151-155 | A mass is kept after the hit iff it is not negative and it plus the power was a mass before the hit. |
| MainLoop.SurvivorMasses | planet_protector/planet_protector.py:151-155 | For a group of living meteors, the masses after the frame are HitAll of the masses before it. Motion plays no part. |
| MainLoop.TickMassesAgree | planet_protector/planet_protector.py:148-155 | The masses after a whole frame, including the spawn into an empty group, are TickMasses of the masses before it. |
| MainLoop.RunSplit | planet_protector/planet_protector.py:143-155 | a + b frames are a frames followed by b frames. |
| MainLoop.RunFromEmpty | planet_protector/planet_protector.py:148-155 | From an empty group under the default laser, after frame k (1 ≤ k ≤ 50) the group holds one meteor of mass 50 - k. Frame 51 leaves it empty. |
| MainLoop.RunRepeats | planet_protector/planet_protector.py:143-155 | Masses that return to themselves after 51 frames repeat with period 51. |
| MainLoop.RunPeriodic | planet_protector/planet_protector.py:143-155 | From an empty group under the default laser, the masses after n·51 + r frames equal those after r frames. |
| MainLoop.Game.constructor | planet_protector/planet_protector.py:134-138 | The planet is at (200, 200), the laser has the default power and the group is empty. |
| MainLoop.Game.Advance | planet_protector/planet_protector.py:151-155 | One meteor is updated and then damaged once: its new state is Step of the old one. |
| MainLoop.Game.SpawnIfEmpty | planet_protector/planet_protector.py:148-149 | An empty group gets one new meteor of mass 50, at rest at the spawn point. A non-empty group is unchanged. Afterwards the group is not empty. |
| MainLoop.Game.UpdateGroup | planet_protector/planet_protector.py:151-155 | The group becomes the survivors of stepping every meteor, in group order. No new objects are added. The group invariant is kept: at most one meteor, each alive with a mass that is not negative. |
| MainLoop.Game.Tick | planet_protector/planet_protector.py:148-155 | The group's views become TickSpec of the old views, and its masses become TickMasses of the old masses. The group invariant is kept. |
| MainLoop.Game.Play | planet_protector/planet_protector.py:143-155 | After one frame per given spawn point, the masses of the group are Run of the starting masses over that many frames. |

## Left out

- Drawing, image loading, the display surface, event polling and `pg.quit`/`sys.exit` are pygame I/O and are not modelled.
- The frame clock (`FPS.tick`) is pygame I/O and is not modelled. `Game.Play` runs a given finite number of frames in place of the infinite `while True` loop.
- `math.atan`, `math.sin` and `math.cos` are floating point. They are the `trig` parameter, constrained only by `IsTrig`.
- `Physics.VelocityChangeSigns`: bounds each component in [0, 0.1] rather than giving its exact float value.
- `rect.move_ip` truncates the float velocity to whole pixels in pygame. Positions here are exact reals, so the rounding of the path is not modelled.
- `Meteor.random_start` uses randomness. The spawn point is a parameter (`spawnAt`, `starts`), and no lemma assumes it lies on the firing circle.
- The meteor's display size (`dimension`) only affects drawing, so it is left out.
- The random `Meteor(100)` spawn at lines 157-158 is left out: it joins no group, so no later step of the loop ever reaches it.
- `Planet.update` does nothing, and `Laser.draw` only draws, so both are left out.
- Economy, upgrades and collision with the planet belong to later iterations of the game. They are not part of this model.
- Dafny reference types stand in for pygame sprite groups. A meteor's `alive` flag stands for membership of the single meteor group.
