/** The per-frame body of Planet Protector's main loop, with drawing, event
    polling and the frame clock removed: spawn a meteor of mass 50 when the
    meteor group is empty, then update every meteor of the group and let the
    laser damage it once; meteors whose mass dropped below zero leave the
    group.

    The Game class carries the mutable state; TickSpec says on values what
    one frame does, and the lemmas below follow the masses of the group over
    many frames. */
module MainLoop {
  import opened Physics
  import opened Sprites

  /** Mass of the meteor spawned into an empty group. */
  const SPAWN_MASS: int := 50

  /** One frame for one meteor: update, then one hit of the laser. */
  function Step(v: MeteorView, planet: Vec, trig: Angle -> Magnitudes, power: int): MeteorView
  {
    Damaged(Moved(v, planet, trig), power)
  }

  /** Over one frame a meteor's mass drops by the laser's power, and it
      stays in the group exactly when it was there and the new mass is not
      negative; its motion plays no part. */
  lemma StepLife(v: MeteorView, planet: Vec, trig: Angle -> Magnitudes, power: int)
    ensures Step(v, planet, trig, power).mass == v.mass - power
    ensures Step(v, planet, trig, power).alive <==> v.alive && v.mass - power >= 0
  {
  }

  function StepAll(vs: seq<MeteorView>, planet: Vec, trig: Angle -> Magnitudes, power: int): seq<MeteorView>
  {
    seq(|vs|, i requires 0 <= i < |vs| => Step(vs[i], planet, trig, power))
  }

  /** The meteors still in the group, in group order. */
  function Survivors(vs: seq<MeteorView>): (r: seq<MeteorView>)
    ensures |r| <= |vs|
    ensures forall i :: 0 <= i < |r| ==> r[i].alive
  {
    if vs == [] then []
    else
      var last := vs[|vs| - 1];
      Survivors(vs[..|vs| - 1]) + (if last.alive then [last] else [])
  }

  /** Survivors keeps exactly the meteors of the group that are still
      alive, and nothing else. */
  lemma {:induction false} SurvivorsFilter(vs: seq<MeteorView>)
    ensures forall x :: x in Survivors(vs) <==> x in vs && x.alive
  {
    if vs != [] {
      SurvivorsFilter(vs[..|vs| - 1]);
      assert vs == vs[..|vs| - 1] + [vs[|vs| - 1]];
    }
  }

  /** Survivors of meteors that each have a non-negative mass whenever they
      are alive all have a non-negative mass. */
  lemma {:induction false} SurvivorsInPlay(vs: seq<MeteorView>)
    requires forall i :: 0 <= i < |vs| && vs[i].alive ==> vs[i].mass >= 0
    ensures forall i :: 0 <= i < |Survivors(vs)| ==> Survivors(vs)[i].mass >= 0
  {
    if vs != [] {
      SurvivorsInPlay(vs[..|vs| - 1]);
    }
  }

  /** After a frame, every meteor still in the group has a mass that is
      not negative. */
  lemma StepAllInPlay(vs: seq<MeteorView>, planet: Vec, trig: Angle -> Magnitudes, power: int)
    ensures forall i :: 0 <= i < |Survivors(StepAll(vs, planet, trig, power))| ==>
              Survivors(StepAll(vs, planet, trig, power))[i].mass >= 0
  {
    var after := StepAll(vs, planet, trig, power);
    forall j | 0 <= j < |after| && after[j].alive
      ensures after[j].mass >= 0
    {
      DamagedInPlay(Moved(vs[j], planet, trig), power);
    }
    SurvivorsInPlay(after);
  }

  /** One frame on the whole group. */
  function TickSpec(vs: seq<MeteorView>, spawnAt: Vec, planet: Vec,
                    trig: Angle -> Magnitudes, power: int): seq<MeteorView>
  {
    var group := if vs == [] then [Spawned(SPAWN_MASS, spawnAt)] else vs;
    Survivors(StepAll(group, planet, trig, power))
  }

  function Masses(vs: seq<MeteorView>): seq<int> {
    seq(|vs|, i requires 0 <= i < |vs| => vs[i].mass)
  }

  /** One laser hit on each mass of the group; masses that become negative
      leave the group. */
  function HitAll(masses: seq<int>, power: int): (r: seq<int>)
    ensures |r| <= |masses|
    ensures forall i :: 0 <= i < |r| ==> r[i] >= 0
  {
    if masses == [] then []
    else
      var m := masses[|masses| - 1] - power;
      HitAll(masses[..|masses| - 1], power) + (if m < 0 then [] else [m])
  }

  /** The masses kept by a hit are exactly those hit masses that are not
      negative: m is kept iff m >= 0 and m + power was a mass before. */
  lemma {:induction false} HitAllFilter(masses: seq<int>, power: int)
    ensures forall x :: x in HitAll(masses, power) <==> x >= 0 && x + power in masses
  {
    if masses != [] {
      HitAllFilter(masses[..|masses| - 1], power);
      assert masses == masses[..|masses| - 1] + [masses[|masses| - 1]];
    }
  }

  /** One frame seen on the masses of the group only. */
  function TickMasses(masses: seq<int>, power: int): seq<int> {
    HitAll(if masses == [] then [SPAWN_MASS] else masses, power)
  }

  /** k frames seen on the masses of the group. */
  function Run(masses: seq<int>, power: int, k: nat): seq<int> {
    if k == 0 then masses else TickMasses(Run(masses, power, k - 1), power)
  }

  /** Dropping the last meteor commutes with stepping the group. */
  lemma StepAllInit(vs: seq<MeteorView>, planet: Vec, trig: Angle -> Magnitudes, power: int)
    requires vs != []
    ensures StepAll(vs, planet, trig, power)[..|vs| - 1] == StepAll(vs[..|vs| - 1], planet, trig, power)
  {
  }

  /** The masses of a concatenation are the concatenated masses. */
  lemma MassesAppend(a: seq<MeteorView>, b: seq<MeteorView>)
    ensures Masses(a + b) == Masses(a) + Masses(b)
  {
  }

  /** The masses after a frame depend only on the masses before it and the
      laser's power: the motion of the meteors plays no part. */
  lemma {:induction false} SurvivorMasses(vs: seq<MeteorView>, planet: Vec,
                                          trig: Angle -> Magnitudes, power: int)
    requires forall i :: 0 <= i < |vs| ==> vs[i].alive
    ensures Masses(Survivors(StepAll(vs, planet, trig, power))) == HitAll(Masses(vs), power)
  {
    if vs != [] {
      var n := |vs|;
      var init := vs[..n - 1];
      var stepped := StepAll(vs, planet, trig, power);
      StepAllInit(vs, planet, trig, power);
      assert Masses(vs)[..n - 1] == Masses(init);
      SurvivorMasses(init, planet, trig, power);
      StepLife(vs[n - 1], planet, trig, power);
      var last := stepped[n - 1];
      var keep := if last.alive then [last] else [];
      var rest := Survivors(StepAll(init, planet, trig, power));
      assert Survivors(stepped) == rest + keep;
      MassesAppend(rest, keep);
    }
  }

  lemma TickMassesAgree(vs: seq<MeteorView>, spawnAt: Vec, planet: Vec,
                        trig: Angle -> Magnitudes, power: int)
    requires forall i :: 0 <= i < |vs| ==> vs[i].alive
    ensures Masses(TickSpec(vs, spawnAt, planet, trig, power)) == TickMasses(Masses(vs), power)
  {
    var group := if vs == [] then [Spawned(SPAWN_MASS, spawnAt)] else vs;
    assert Masses(group) == if vs == [] then [SPAWN_MASS] else Masses(vs);
    SurvivorMasses(group, planet, trig, power);
  }

  /** Frames compose: a + b frames are a frames followed by b frames. */
  lemma {:induction false} RunSplit(masses: seq<int>, power: int, a: nat, b: nat)
    ensures Run(masses, power, a + b) == Run(Run(masses, power, a), power, b)
  {
    if b > 0 {
      RunSplit(masses, power, a, b - 1);
    }
  }

  /** Under the default laser, starting from an empty group: after frame k
      (1 <= k <= 50) the group holds the one spawned meteor with mass
      50 - k, and frame 51 removes it. */
  lemma {:induction false} RunFromEmpty(k: nat)
    requires 1 <= k <= SPAWN_MASS + 1
    ensures Run([], DEFAULT_POWER, k) == if k <= SPAWN_MASS then [SPAWN_MASS - k] else []
  {
    if k > 1 {
      RunFromEmpty(k - 1);
      assert Run([], DEFAULT_POWER, k) == HitAll([SPAWN_MASS - (k - 1)], DEFAULT_POWER);
    }
  }

  /** Frames between two spawns under the default laser. */
  const PERIOD: nat := SPAWN_MASS + 1

  /** A run that is back at its starting masses after PERIOD frames repeats
      with that period. */
  lemma {:induction false} RunRepeats(masses: seq<int>, power: int, n: nat, r: nat)
    requires Run(masses, power, PERIOD) == masses
    ensures Run(masses, power, n * PERIOD + r) == Run(masses, power, r)
  {
    if n > 0 {
      var k := (n - 1) * PERIOD + r;
      assert n * PERIOD + r == PERIOD + k;
      RunSplit(masses, power, PERIOD, k);
      RunRepeats(masses, power, n - 1, r);
    }
  }

  /** The group's masses repeat with period 51 frames: each spawned meteor
      takes 51 hits to destroy, and the next one spawns on the frame after. */
  lemma RunPeriodic(n: nat, r: nat)
    ensures Run([], DEFAULT_POWER, n * PERIOD + r) == Run([], DEFAULT_POWER, r)
  {
    RunFromEmpty(PERIOD);
    RunRepeats([], DEFAULT_POWER, n, r);
  }

  /** No object appears twice (a pygame group is a set). */
  ghost predicate Distinct(ms: seq<Meteor>) {
    forall j, k :: 0 <= j < k < |ms| ==> ms[j] != ms[k]
  }

  /** The views of a group of meteor objects, in group order. */
  function Views(ms: seq<Meteor>): (r: seq<MeteorView>)
    reads ms
  {
    seq(|ms|, i reads ms requires 0 <= i < |ms| => ms[i].View())
  }

  class Game {
    const planet: Planet
    const laser: Laser
    /** The meteor group: every meteor in it is alive. */
    var meteors: seq<Meteor>

    /** The group holds at most one meteor (a meteor is only spawned into
        an empty group), and every meteor in it is alive with a mass that is
        not negative. */
    ghost predicate Valid()
      reads this, meteors
    {
      |meteors| <= 1 &&
      forall i :: 0 <= i < |meteors| ==> meteors[i].alive && meteors[i].mass >= 0
    }

    /** main's set-up: the planet at its fixed centre, a laser of default
        power, an empty group. */
    constructor ()
      ensures Valid() && meteors == []
      ensures planet.center == PLANET_CENTER && laser.power == DEFAULT_POWER
    {
      planet := new Planet();
      laser := new Laser();
      meteors := [];
    }

    /** The loop body for one meteor of the group: update it, then let the
        laser damage it once. */
    method Advance(meteor: Meteor, trig: Angle -> Magnitudes)
      modifies meteor
      ensures meteor.View() == Step(old(meteor.View()), planet.center, trig, laser.power)
    {
      meteor.Update(planet, trig);
      laser.Damage(meteor);
    }

    /** One pass of the main loop's body. spawnAt stands for the random
        start position of a new meteor, trig for the trigonometry. */
    method Tick(spawnAt: Vec, trig: Angle -> Magnitudes)
      requires Valid()
      modifies this, set m | m in meteors
      ensures Valid()
      ensures Views(meteors) == TickSpec(old(Views(meteors)), spawnAt, planet.center, trig, laser.power)
      ensures Masses(Views(meteors)) == TickMasses(old(Masses(Views(meteors))), laser.power)
      ensures forall m :: m in meteors ==> m in old(meteors) || fresh(m)
    {
      ghost var prev := Views(meteors);
      assert forall j :: 0 <= j < |prev| ==> prev[j].alive;
      TickMassesAgree(prev, spawnAt, planet.center, trig, laser.power);
      SpawnIfEmpty(spawnAt);
      UpdateGroup(trig);
    }

    /** A meteor of mass 50 joins the group when the group is empty. */
    method SpawnIfEmpty(spawnAt: Vec)
      requires Valid()
      modifies this
      ensures Valid() && meteors != []
      ensures Views(meteors) == if old(meteors) == [] then [Spawned(SPAWN_MASS, spawnAt)] else old(Views(meteors))
      ensures forall m :: m in meteors ==> m in old(meteors) || fresh(m)
    {
      if meteors == [] {
        var spawned := new Meteor(SPAWN_MASS, spawnAt);
        meteors := [spawned];
      }
    }

    /** Every meteor of the group is updated and damaged once; those that
        left the group are dropped from it. */
    method UpdateGroup(trig: Angle -> Magnitudes)
      requires Valid()
      modifies this, set m | m in meteors
      ensures Valid()
      ensures Views(meteors) == Survivors(StepAll(old(Views(meteors)), planet.center, trig, laser.power))
      ensures forall m :: m in meteors ==> m in old(meteors)
    {
      // the group is iterated over a copy, so removals do not disturb the loop
      var group := meteors;
      ghost var before := Views(group);
      ghost var after := StepAll(before, planet.center, trig, laser.power);
      var live: seq<Meteor> := [];
      for i := 0 to |group|
        invariant Distinct(group)
        invariant forall j :: 0 <= j < i ==> group[j].View() == after[j]
        invariant forall j :: i <= j < |group| ==> group[j].View() == before[j]
        invariant forall m :: m in live ==> m in group[..i]
        invariant Views(live) == Survivors(after[..i])
      {
        var meteor := group[i];
        assert meteor.View() == before[i];
        Advance(meteor, trig);
        assert meteor.View() == after[i];
        if meteor.alive {
          live := live + [meteor];
        }
        assert after[..i + 1] == after[..i] + [after[i]];
      }
      assert after[..|group|] == after;
      StepAllInPlay(before, planet.center, trig, laser.power);
      meteors := live;
      assert forall j :: 0 <= j < |live| ==> live[j].View() == Views(live)[j];
    }

    /** The main loop run for |starts| frames, the i-th frame spawning (if
        it spawns) at starts[i]. */
    method Play(starts: seq<Vec>, trig: Angle -> Magnitudes)
      requires Valid()
      modifies this, set m | m in meteors
      ensures Valid()
      ensures Masses(Views(meteors)) == Run(old(Masses(Views(meteors))), laser.power, |starts|)
    {
      for i := 0 to |starts|
        invariant Valid()
        invariant forall m :: m in meteors ==> m in old(meteors) || fresh(m)
        invariant Masses(Views(meteors)) == Run(old(Masses(Views(meteors))), laser.power, i)
      {
        Tick(starts[i], trig);
      }
    }
  }
}
