/** The simulation state the class `Application` of src/main.cpp holds, and
    the handlers that change it: the per-frame `update`, the key and mouse
    callbacks, and the copy of firefly positions into the renderer's
    500-slot light array.

    The two particle lists hold particle values; the source holds pointers
    that no other list shares, so the values say the same. */
module Simulation {
  import opened Vectors
  import opened Particles
  import opened Rules

  datatype Key = KeyEscape | KeyZ | KeyG | KeyM | KeyTab | KeyC | OtherKey

  datatype Action = Press | Release | Repeat

  function Min(a: int, b: int): int {
    if a < b then a else b
  }

  class Application {
    var fireflies: seq<ParticleState>
    var magnets: seq<ParticleState>
    const centerPoint: Vec3 := Vec3(0.0, 0.0, -2.0)
    var isGravityOn: bool
    var isMagnetModeOn: bool
    var isCenterPointAttractive: bool

    /** Every particle the application creates has a positive mass, so every
        `update` may divide by it. */
    ghost predicate Valid()
      reads this
    {
      PositiveMasses(fireflies) && PositiveMasses(magnets)
    }

    constructor ()
      ensures Valid()
      ensures fireflies == [] && magnets == []
      ensures !isGravityOn && !isMagnetModeOn && !isCenterPointAttractive
    {
      fireflies := [];
      magnets := [];
      isGravityOn := false;
      isMagnetModeOn := false;
      isCenterPointAttractive := false;
    }

    /** One frame of simulation. Each firefly is first integrated with the
        forces accumulated since the last frame, then receives this frame's
        forces at its new position; afterwards the oldest fireflies are
        dropped until at most 490 remain. Magnets and toggles are untouched. */
    method Update(dtime: real, draws: seq<FlyDraws>, length: Vec3 -> real)
      requires Valid()
      requires |draws| == |fireflies|
      modifies this
      ensures Valid()
      ensures fireflies == Evict(Tick(old(fireflies), dtime, centerPoint, old(isCenterPointAttractive),
                                      old(isGravityOn), old(magnets), draws, length))
      ensures |fireflies| <= EvictAbove
      ensures magnets == old(magnets)
      ensures isGravityOn == old(isGravityOn) && isMagnetModeOn == old(isMagnetModeOn)
      ensures isCenterPointAttractive == old(isCenterPointAttractive)
    {
      ghost var ticked := Tick(fireflies, dtime, centerPoint, isCenterPointAttractive, isGravityOn,
                               magnets, draws, length);
      TickKeepsMasses(fireflies, dtime, centerPoint, isCenterPointAttractive, isGravityOn, magnets, draws, length);
      var i := 0;
      while i < |fireflies|
        invariant 0 <= i <= |fireflies| == |old(fireflies)|
        invariant magnets == old(magnets)
        invariant isGravityOn == old(isGravityOn) && isMagnetModeOn == old(isMagnetModeOn)
        invariant isCenterPointAttractive == old(isCenterPointAttractive)
        invariant forall j :: 0 <= j < i ==> fireflies[j] == ticked[j]
        invariant forall j :: i <= j < |fireflies| ==> fireflies[j] == old(fireflies)[j]
      {
        var fly := fireflies[i];
        fly := Integrate(fly, dtime);
        fly := ApplyForces(fly, draws[i], length);
        assert fly == ticked[i];
        fireflies := fireflies[i := fly];
        i := i + 1;
      }
      assert fireflies == ticked;
      while |fireflies| > EvictAbove
        invariant Evict(fireflies) == Evict(ticked)
        invariant PositiveMasses(fireflies) && magnets == old(magnets)
        invariant isGravityOn == old(isGravityOn) && isMagnetModeOn == old(isMagnetModeOn)
        invariant isCenterPointAttractive == old(isCenterPointAttractive)
        decreases |fireflies|
      {
        EvictDropsFront(fireflies);
        fireflies := fireflies[1..];
      }
      assert Evict(fireflies) == fireflies;
    }

    /** The forces one frame adds to a firefly that `Update` has just
        integrated: centre pull if on, gravity if on, the push of every magnet
        within the unit radius, then jitter. */
    method ApplyForces(moved: ParticleState, d: FlyDraws, length: Vec3 -> real) returns (fly: ParticleState)
      ensures fly == AddTickForces(moved, centerPoint, isCenterPointAttractive, isGravityOn, magnets, d, length)
    {
      fly := moved;
      if isCenterPointAttractive {
        fly := AddForceTo(fly, CenterForce(centerPoint, fly.position, d.center, length));
      }
      ghost var pulled := fly;
      if isGravityOn {
        fly := AddForceTo(fly, Gravity);
      }
      ghost var fallen := fly;
      assert fallen.position == moved.position;
      var m := 0;
      while m < |magnets|
        invariant 0 <= m <= |magnets|
        invariant fly == AddForceTo(fallen, MagnetForce(fallen.position, magnets[..m]))
      {
        var forceVector := Sub(fly.position, magnets[m].position);
        if SqLen(forceVector) < 1.0 {
          fly := AddForceTo(fly, forceVector);
        }
        assert magnets[..m + 1][..m] == magnets[..m];
        m := m + 1;
      }
      assert magnets[..|magnets|] == magnets;
      ghost var pushed := fly;
      fly := AddForceTo(fly, JitterForce(d));
      assert pushed == AddForceTo(fallen, MagnetForce(fallen.position, magnets));
    }

    /** G, M and C flip their own toggle on key release only; TAB empties both
        lists on any action. Nothing else changes; ESC and Z act on the window
        and on OpenGL only. */
    method KeyCallback(key: Key, action: Action)
      requires Valid()
      modifies this
      ensures Valid()
      ensures isGravityOn == (old(isGravityOn) != (key == KeyG && action == Release))
      ensures isMagnetModeOn == (old(isMagnetModeOn) != (key == KeyM && action == Release))
      ensures isCenterPointAttractive == (old(isCenterPointAttractive) != (key == KeyC && action == Release))
      ensures key == KeyTab ==> fireflies == [] && magnets == []
      ensures key != KeyTab ==> fireflies == old(fireflies) && magnets == old(magnets)
    {
      match key {
        case KeyG =>
          if action == Release {
            isGravityOn := !isGravityOn;
          }
        case KeyM =>
          if action == Release {
            isMagnetModeOn := !isMagnetModeOn;
          }
        case KeyTab =>
          magnets := [];
          fireflies := [];
        case KeyC =>
          if action == Release {
            isCenterPointAttractive := !isCenterPointAttractive;
          }
        case _ =>
      }
    }

    /** A press of any button at window point (posX, posY) spawns at the
        matching world point: ten fireflies at depth -2, or, in magnet mode,
        one magnet at a random depth. Other actions change nothing. */
    method MouseCallback(action: Action, posX: real, posY: real, width: int, height: int,
                         flyDraws: seq<SpawnDraws>, magnetDraw: Draw)
      requires Valid()
      requires action == Press ==> width != 0 && height != 0
      requires |flyDraws| == FirefliesPerClick
      modifies this
      ensures Valid()
      ensures isGravityOn == old(isGravityOn) && isMagnetModeOn == old(isMagnetModeOn)
      ensures isCenterPointAttractive == old(isCenterPointAttractive)
      ensures action != Press ==> fireflies == old(fireflies) && magnets == old(magnets)
      ensures action == Press && !isMagnetModeOn ==>
                fireflies == old(fireflies) + FireflyBatch(WorldX(posX, width), WorldY(posY, height), flyDraws)
                && magnets == old(magnets)
      ensures action == Press && isMagnetModeOn ==>
                magnets == old(magnets) + [NewMagnet(WorldX(posX, width), WorldY(posY, height), magnetDraw)]
                && fireflies == old(fireflies)
    {
      if action == Press {
        var worldSpaceX := 4.0 * posX / (width as real) - 2.0;
        var worldSpaceY := -2.0 * posY / (height as real) + 1.0;
        if !isMagnetModeOn {
          var i := 0;
          while i < FirefliesPerClick
            invariant 0 <= i <= FirefliesPerClick
            invariant fireflies == old(fireflies) + FireflyBatch(worldSpaceX, worldSpaceY, flyDraws[..i])
            invariant PositiveMasses(fireflies) && magnets == old(magnets)
            invariant isGravityOn == old(isGravityOn) && isMagnetModeOn == old(isMagnetModeOn)
            invariant isCenterPointAttractive == old(isCenterPointAttractive)
          {
            var d := flyDraws[i];
            var randVelo := Vec3(Jitter(d.vx), Jitter(d.vy), Jitter(d.vz));
            fireflies := fireflies + [ParticleState(FireflyMass(d.mass), Vec3(worldSpaceX, worldSpaceY, -2.0), randVelo, Zero)];
            assert FireflyBatch(worldSpaceX, worldSpaceY, flyDraws[..i + 1])
                == FireflyBatch(worldSpaceX, worldSpaceY, flyDraws[..i]) + [NewFirefly(worldSpaceX, worldSpaceY, d)];
            i := i + 1;
          }
          assert flyDraws[..i] == flyDraws;
        } else {
          magnets := magnets + [ParticleState(2.0, Vec3(worldSpaceX, worldSpaceY, MagnetDepth(magnetDraw)), Zero, Zero)];
        }
      }
    }

    /** The position copy of `drawObjects` as written: it writes slot `f` of
        the 500-slot array for every firefly index `f`, so it needs at most
        500 fireflies. */
    method FillLightsAsWritten() returns (lights: array<Vec3>)
      requires |fireflies| <= NumberOfFireflies
      ensures lights.Length == NumberOfFireflies
      ensures forall f :: 0 <= f < |fireflies| ==> lights[f] == fireflies[f].position
    {
      lights := new Vec3[NumberOfFireflies](_ => Zero);
      var f := 0;
      while f < |fireflies|
        invariant 0 <= f <= |fireflies|
        invariant forall g :: 0 <= g < f ==> lights[g] == fireflies[g].position
      {
        lights[f] := fireflies[f].position;
        f := f + 1;
      }
    }

    /** The position copy bounded by the array: the first `min(n, 500)`
        fireflies, which are all the shader's 500 light uniforms can hold. */
    method FillLights() returns (lights: array<Vec3>)
      ensures lights.Length == NumberOfFireflies
      ensures forall f :: 0 <= f < Min(|fireflies|, NumberOfFireflies) ==> lights[f] == fireflies[f].position
    {
      lights := new Vec3[NumberOfFireflies](_ => Zero);
      var f := 0;
      while f < Min(|fireflies|, NumberOfFireflies)
        invariant 0 <= f <= Min(|fireflies|, NumberOfFireflies)
        invariant forall g :: 0 <= g < f ==> lights[g] == fireflies[g].position
      {
        lights[f] := fireflies[f].position;
        f := f + 1;
      }
    }
  }

  /** A frame's `update` on a population of at least 490 fireflies, followed
      by two presses handled in the same event poll, leaves 510 fireflies:
      more than the 500 slots `FillLightsAsWritten` may write. */
  method TwoPressScenario(app: Application, dtime: real, draws: seq<FlyDraws>, length: Vec3 -> real,
                          posX: real, posY: real, width: int, height: int, flyDraws: seq<SpawnDraws>)
    requires app.Valid()
    requires |draws| == |app.fireflies| >= EvictAbove
    requires !app.isMagnetModeOn
    requires |flyDraws| == FirefliesPerClick && width != 0 && height != 0
    modifies app
    ensures app.Valid()
    ensures |app.fireflies| == 510 > NumberOfFireflies
  {
    app.Update(dtime, draws, length);
    app.MouseCallback(Press, posX, posY, width, height, flyDraws, 0);
    app.MouseCallback(Press, posX, posY, width, height, flyDraws, 0);
  }
}
