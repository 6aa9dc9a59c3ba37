/** The value-level rules of the firefly simulation in src/main.cpp: the
    random-float formula, the force terms one tick adds to a firefly, the
    per-firefly step, the population cap and the spawn rules.

    `rand() % 100` is an input here: a `Draw` in [0, 100). `glm::length` is
    the parameter `length`, an arbitrary function; the magnet radius test is
    made on the squared length. */
module Rules {
  import opened Vectors
  import opened Particles

  /** Size of the renderer's light array (NUMBER_OF_FIREFLIES). */
  const NumberOfFireflies: nat := 500
  /** Fireflies spawned by one mouse press (FIREFLIES_PER_CLICK). */
  const FirefliesPerClick: nat := 10
  /** The population the per-tick eviction trims to. */
  const EvictAbove: nat := NumberOfFireflies - FirefliesPerClick

  /** One `rand() % 100`. */
  type Draw = k: int | 0 <= k < 100

  // ---------------------------------------------------------------------
  // generateRandomFloat

  /** `generateRandomFloat(lowBound, highBound)` with draw `k`. It reaches
      `lowBound` (at k = 0) but never `highBound`: at most 99% of the span. */
  function RandomFloat(lowBound: real, highBound: real, k: Draw): (r: real)
    ensures lowBound <= highBound ==> lowBound <= r <= lowBound + 0.99 * (highBound - lowBound)
    ensures lowBound < highBound ==> r < highBound
    ensures k == 0 ==> r == lowBound
  {
    var t := (k as real) / 100.0;
    var span := highBound - lowBound;
    assert lowBound <= highBound ==> 0.0 <= t * span <= 0.99 * span by {
      if lowBound <= highBound {
        MulMonotone(t, 0.99, span);
      }
    }
    t * span + lowBound
  }

  lemma MulMonotone(a: real, b: real, c: real)
    requires 0.0 <= a <= b && 0.0 <= c
    ensures 0.0 <= a * c <= b * c
  {
    assert (b - a) * c >= 0.0;
  }

  /** The inverse of `RandomFloat` on a non-empty range: the value it gives
      determines the draw. */
  function DrawOf(lowBound: real, highBound: real, r: real): int
    requires lowBound < highBound
  {
    ((r - lowBound) * 100.0 / (highBound - lowBound)).Floor
  }

  lemma RandomFloatDeterminesDraw(lowBound: real, highBound: real, k: Draw)
    requires lowBound < highBound
    ensures DrawOf(lowBound, highBound, RandomFloat(lowBound, highBound, k)) == k
  {
    var span := highBound - lowBound;
    var t := (k as real) / 100.0;
    assert RandomFloat(lowBound, highBound, k) - lowBound == t * span;
    assert t * span * 100.0 / span == (k as real);
  }

  /** Jitter and spawn-velocity components: `generateRandomFloat(-0.15f, 0.15f)`. */
  /** A jitter component: zero exactly at the middle draw. */
  function Jitter(k: Draw): (r: real)
    ensures -0.15 <= r <= 0.147
    ensures r == 0.0 <==> k == 50
  {
    RandomFloat(-0.15, 0.15, k)
  }

  /** Firefly mass: `generateRandomFloat(0.7f, 1.2f)`. */
  function FireflyMass(k: Draw): (r: real)
    ensures 0.7 <= r <= 1.195
  {
    RandomFloat(0.7, 1.2, k)
  }

  /** Centre-attraction factor: `generateRandomFloat(0.1f, 0.25f)`. */
  function CenterPull(k: Draw): (r: real)
    ensures 0.1 <= r <= 0.2485
  {
    RandomFloat(0.1, 0.25, k)
  }

  /** Magnet depth: `generateRandomFloat(-2.5, -1.5)`. */
  function MagnetDepth(k: Draw): (r: real)
    ensures -2.5 <= r <= -1.51
  {
    RandomFloat(-2.5, -1.5, k)
  }

  // ---------------------------------------------------------------------
  // Forces of one tick

  /** The draws one firefly consumes in one tick: the centre factor (used
      only while attraction is on) and the three jitter components. */
  datatype FlyDraws = FlyDraws(center: Draw, jx: Draw, jy: Draw, jz: Draw)

  const Gravity: Vec3 := Vec3(0.0, -0.25, 0.0)

  /** The random force every firefly receives every tick. */
  function JitterForce(d: FlyDraws): (f: Vec3)
    ensures -0.15 <= f.x <= 0.147 && -0.15 <= f.y <= 0.147 && -0.15 <= f.z <= 0.147
    ensures f == Zero <==> d.jx == 50 && d.jy == 50 && d.jz == 50
  {
    Vec3(Jitter(d.jx), Jitter(d.jy), Jitter(d.jz))
  }

  /** `(|d| / 25) * factor * d` with `d = center - position`. */
  function CenterForce(center: Vec3, position: Vec3, k: Draw, length: Vec3 -> real): Vec3 {
    var toCenter := Sub(center, position);
    Scale(length(toCenter) / 25.0 * CenterPull(k), toCenter)
  }

  /** For a non-negative length, the centre force is a non-negative multiple
      of the offset to the centre, between 0.1 and 0.2485 times `|d| / 25`:
      it never pushes a firefly away from the centre. */
  lemma CenterForceAttracts(center: Vec3, position: Vec3, k: Draw, length: Vec3 -> real)
    requires length(Sub(center, position)) >= 0.0
    ensures Dot(CenterForce(center, position, k, length), Sub(center, position)) >= 0.0
    ensures CenterForce(center, position, k, length)
         == Scale(length(Sub(center, position)) / 25.0 * CenterPull(k), Sub(center, position))
    ensures 0.1 * (length(Sub(center, position)) / 25.0) <= length(Sub(center, position)) / 25.0 * CenterPull(k)
         <= 0.2485 * (length(Sub(center, position)) / 25.0)
  {
    var d := Sub(center, position);
    var c := length(d) / 25.0 * CenterPull(k);
    MulMonotone(0.1, CenterPull(k), length(d) / 25.0);
    MulMonotone(CenterPull(k), 0.2485, length(d) / 25.0);
    assert Dot(Scale(c, d), d) == c * SqLen(d);
    SqLenNonNegative(d);
    assert c >= 0.0;
    assert c * SqLen(d) >= 0.0;
  }

  /** One magnet's push on a firefly: the raw offset `position - magnet`
      when it is shorter than 1, nothing otherwise. */
  function MagnetTerm(position: Vec3, magnet: Vec3): Vec3 {
    var away := Sub(position, magnet);
    if SqLen(away) < 1.0 then away else Zero
  }

  /** A magnet strictly inside the unit radius gives exactly the offset; one
      at distance 1 or more gives nothing; one at the firefly's own position
      gives the zero vector. */
  lemma MagnetTermCases(position: Vec3, magnet: Vec3)
    ensures SqLen(Sub(position, magnet)) < 1.0 ==> MagnetTerm(position, magnet) == Sub(position, magnet)
    ensures SqLen(Sub(position, magnet)) >= 1.0 ==> MagnetTerm(position, magnet) == Zero
    ensures position == magnet ==> MagnetTerm(position, magnet) == Zero
  {
  }

  /** The magnet terms of all magnets, added in list order. */
  function MagnetForce(position: Vec3, magnets: seq<ParticleState>): Vec3
    decreases |magnets|
  {
    if magnets == [] then Zero
    else Add(MagnetForce(position, magnets[..|magnets| - 1]), MagnetTerm(position, magnets[|magnets| - 1].position))
  }

  /** The magnets within the unit radius of `position`, in list order. */
  function Near(position: Vec3, magnets: seq<ParticleState>): (r: seq<ParticleState>)
    decreases |magnets|
  {
    if magnets == [] then []
    else if SqLen(Sub(position, magnets[|magnets| - 1].position)) < 1.0
    then Near(position, magnets[..|magnets| - 1]) + [magnets[|magnets| - 1]]
    else Near(position, magnets[..|magnets| - 1])
  }

  /** Magnets at distance 1 or more add nothing: the total is the same over
      the near magnets alone, where every term is the raw offset. */
  lemma {:induction false} MagnetForceOnlyNear(position: Vec3, magnets: seq<ParticleState>)
    ensures MagnetForce(position, magnets) == MagnetForce(position, Near(position, magnets))
    ensures forall j :: 0 <= j < |Near(position, magnets)| ==>
              SqLen(Sub(position, Near(position, magnets)[j].position)) < 1.0
    decreases |magnets|
  {
    if magnets != [] {
      var init := magnets[..|magnets| - 1];
      var last := magnets[|magnets| - 1];
      MagnetForceOnlyNear(position, init);
      var n := Near(position, init);
      if SqLen(Sub(position, last.position)) < 1.0 {
        assert (n + [last])[..|n + [last]| - 1] == n;
      }
    }
  }

  /** With no magnet inside the unit radius, the magnets add nothing. */
  lemma {:induction false} MagnetForceOutOfRange(position: Vec3, magnets: seq<ParticleState>)
    requires forall j :: 0 <= j < |magnets| ==> SqLen(Sub(position, magnets[j].position)) >= 1.0
    ensures MagnetForce(position, magnets) == Zero
    decreases |magnets|
  {
    if magnets != [] {
      MagnetForceOutOfRange(position, magnets[..|magnets| - 1]);
    }
  }

  /** One tick of one firefly, in the source's order: integrate first (with
      the forces of the previous tick), then add this tick's centre pull,
      gravity, magnet pushes and jitter, all computed at the new position. */
  function StepFirefly(p: ParticleState, dt: real, center: Vec3, centerOn: bool, gravityOn: bool,
                       magnets: seq<ParticleState>, d: FlyDraws, length: Vec3 -> real): ParticleState
    requires p.mass != 0.0
  {
    AddTickForces(Integrate(p, dt), center, centerOn, gravityOn, magnets, d, length)
  }

  /** The `addForce` calls of one tick, in the source's order, on a firefly
      that has already been integrated. */
  function AddTickForces(moved: ParticleState, center: Vec3, centerOn: bool, gravityOn: bool,
                         magnets: seq<ParticleState>, d: FlyDraws, length: Vec3 -> real): ParticleState
  {
    var pulled := if centerOn then AddForceTo(moved, CenterForce(center, moved.position, d.center, length)) else moved;
    var fallen := if gravityOn then AddForceTo(pulled, Gravity) else pulled;
    var pushed := AddForceTo(fallen, MagnetForce(fallen.position, magnets));
    AddForceTo(pushed, JitterForce(d))
  }

  /** The forces one tick adds, as one vector. */
  function TickForce(position: Vec3, center: Vec3, centerOn: bool, gravityOn: bool,
                     magnets: seq<ParticleState>, d: FlyDraws, length: Vec3 -> real): Vec3
  {
    var c := if centerOn then CenterForce(center, position, d.center, length) else Zero;
    var g := if gravityOn then Gravity else Zero;
    Add(Add(Add(c, g), MagnetForce(position, magnets)), JitterForce(d))
  }

  /** A firefly moves this tick exactly as `update` alone would move it, so its
      motion depends only on forces added in earlier ticks; on return its
      accumulator holds this tick's contributions and nothing older. */
  lemma StepFireflyIntegratesFirst(p: ParticleState, dt: real, center: Vec3, centerOn: bool, gravityOn: bool,
                                   magnets: seq<ParticleState>, d: FlyDraws, length: Vec3 -> real)
    requires p.mass != 0.0
    ensures StepFirefly(p, dt, center, centerOn, gravityOn, magnets, d, length).mass == p.mass
    ensures StepFirefly(p, dt, center, centerOn, gravityOn, magnets, d, length).position == Integrate(p, dt).position
    ensures StepFirefly(p, dt, center, centerOn, gravityOn, magnets, d, length).velocity == Integrate(p, dt).velocity
    ensures StepFirefly(p, dt, center, centerOn, gravityOn, magnets, d, length).forces
         == TickForce(Integrate(p, dt).position, center, centerOn, gravityOn, magnets, d, length)
  {
  }

  /** Gravity adds exactly (0, -0.25, 0) to the accumulator when on, and
      changes nothing else; the same tick with gravity off differs only there. */
  lemma GravityOnlyWhenOn(p: ParticleState, dt: real, center: Vec3, centerOn: bool,
                          magnets: seq<ParticleState>, d: FlyDraws, length: Vec3 -> real)
    requires p.mass != 0.0
    ensures StepFirefly(p, dt, center, centerOn, true, magnets, d, length)
         == AddForceTo(StepFirefly(p, dt, center, centerOn, false, magnets, d, length), Gravity)
  {
    GravityAddsOnlyGravity(Integrate(p, dt), center, centerOn, magnets, d, length);
  }

  lemma GravityAddsOnlyGravity(moved: ParticleState, center: Vec3, centerOn: bool,
                               magnets: seq<ParticleState>, d: FlyDraws, length: Vec3 -> real)
    ensures AddTickForces(moved, center, centerOn, true, magnets, d, length)
         == AddForceTo(AddTickForces(moved, center, centerOn, false, magnets, d, length), Gravity)
  {
    var pulled := if centerOn then AddForceTo(moved, CenterForce(center, moved.position, d.center, length)) else moved;
    var m := MagnetForce(pulled.position, magnets);
    var j := JitterForce(d);
    var on := AddForceTo(AddForceTo(AddForceTo(pulled, Gravity), m), j);
    var off := AddForceTo(AddForceTo(pulled, m), j);
    assert AddForceTo(pulled, Gravity).position == pulled.position;
    assert AddTickForces(moved, center, centerOn, true, magnets, d, length) == on;
    assert AddTickForces(moved, center, centerOn, false, magnets, d, length) == off;
    assert on.forces == Add(off.forces, Gravity);
  }

  /** With attraction and gravity off and no magnet within reach, the only
      force left after a tick is the jitter, each component in [-0.15, 0.147]. */
  lemma IdleFireflyGetsOnlyJitter(p: ParticleState, dt: real, center: Vec3,
                                  magnets: seq<ParticleState>, d: FlyDraws, length: Vec3 -> real)
    requires p.mass != 0.0
    requires forall j :: 0 <= j < |magnets| ==>
               SqLen(Sub(Integrate(p, dt).position, magnets[j].position)) >= 1.0
    ensures StepFirefly(p, dt, center, false, false, magnets, d, length).forces == JitterForce(d)
  {
    MagnetForceOutOfRange(Integrate(p, dt).position, magnets);
  }

  // ---------------------------------------------------------------------
  // The whole population

  predicate PositiveMasses(ps: seq<ParticleState>) {
    forall i :: 0 <= i < |ps| ==> ps[i].mass > 0.0
  }

  /** The physics pass of one tick over every firefly. */
  function Tick(fireflies: seq<ParticleState>, dt: real, center: Vec3, centerOn: bool, gravityOn: bool,
                magnets: seq<ParticleState>, draws: seq<FlyDraws>, length: Vec3 -> real): seq<ParticleState>
    requires PositiveMasses(fireflies) && |draws| == |fireflies|
  {
    seq(|fireflies|, i requires 0 <= i < |fireflies| =>
      StepFirefly(fireflies[i], dt, center, centerOn, gravityOn, magnets, draws[i], length))
  }

  /** The pass keeps every mass, hence keeps them positive. */
  lemma TickKeepsMasses(fireflies: seq<ParticleState>, dt: real, center: Vec3, centerOn: bool, gravityOn: bool,
                        magnets: seq<ParticleState>, draws: seq<FlyDraws>, length: Vec3 -> real)
    requires PositiveMasses(fireflies) && |draws| == |fireflies|
    ensures |Tick(fireflies, dt, center, centerOn, gravityOn, magnets, draws, length)| == |fireflies|
    ensures forall i :: 0 <= i < |fireflies| ==>
              Tick(fireflies, dt, center, centerOn, gravityOn, magnets, draws, length)[i].mass == fireflies[i].mass
    ensures PositiveMasses(Tick(fireflies, dt, center, centerOn, gravityOn, magnets, draws, length))
  {
  }

  /** Oldest-first eviction: drop the front while more than 490 remain. The
      result is the newest `min(|s|, 490)` entries, in their original order. */
  function Evict<T>(s: seq<T>): (r: seq<T>)
    ensures |r| == if |s| > EvictAbove then EvictAbove else |s|
    ensures r == s[|s| - |r|..]
    decreases |s|
  {
    if |s| > EvictAbove then Evict(s[1..]) else s
  }

  /** One step of the eviction loop: while above the cap, dropping the front
      entry leaves the outcome unchanged; the masses of what remains are
      still positive. */
  lemma EvictDropsFront(s: seq<ParticleState>)
    requires |s| > EvictAbove
    ensures Evict(s) == Evict(s[1..])
    ensures PositiveMasses(s) ==> PositiveMasses(s[1..])
  {
  }

  /** Evicting twice is evicting once. */
  lemma EvictIdempotent<T>(s: seq<T>)
    ensures Evict(Evict(s)) == Evict(s)
  {
  }

  /** After a tick, one mouse press fits in the 500-slot light array. */
  lemma EvictLeavesRoomForOneBatch<T>(s: seq<T>, batch: seq<T>)
    requires |batch| == FirefliesPerClick
    ensures |Evict(s) + batch| <= NumberOfFireflies
  {
  }

  // ---------------------------------------------------------------------
  // Spawning

  /** Window x coordinate to world x: `4 * posX / width - 2`. */
  function WorldX(posX: real, width: int): real
    requires width != 0
  {
    4.0 * posX / (width as real) - 2.0
  }

  /** Window y coordinate to world y: `-2 * posY / height + 1` (y grows down
      on screen, up in the world). */
  function WorldY(posY: real, height: int): real
    requires height != 0
  {
    -2.0 * posY / (height as real) + 1.0
  }

  /** The inverse maps, world back to window. */
  function CursorX(worldX: real, width: int): real {
    (worldX + 2.0) * (width as real) / 4.0
  }

  function CursorY(worldY: real, height: int): real {
    (1.0 - worldY) * (height as real) / 2.0
  }

  /** The window maps onto [-2, 2] x [-1, 1], top-left corner to (-2, 1). */
  lemma CursorInWindowMapsToView(posX: real, posY: real, width: int, height: int)
    requires width > 0 && height > 0
    requires 0.0 <= posX <= width as real && 0.0 <= posY <= height as real
    ensures -2.0 <= WorldX(posX, width) <= 2.0
    ensures -1.0 <= WorldY(posY, height) <= 1.0
    ensures WorldX(0.0, width) == -2.0 && WorldY(0.0, height) == 1.0
  {
    var w := width as real;
    var h := height as real;
    assert 4.0 * posX / w <= 4.0 by {
      assert 4.0 * posX <= 4.0 * w;
      DivMonotone(4.0 * posX, 4.0 * w, w);
    }
    assert 2.0 * posY / h <= 2.0 by {
      assert 2.0 * posY <= 2.0 * h;
      DivMonotone(2.0 * posY, 2.0 * h, h);
    }
    assert -2.0 * posY / h == -(2.0 * posY / h);
  }

  lemma MulDivCancel(a: real, c: real)
    requires c != 0.0
    ensures a * c / c == a
  {
    var q := a * c / c;
    assert q * c == a * c;
    assert (q - a) * c == 0.0;
  }

  lemma DivMonotone(a: real, b: real, c: real)
    requires 0.0 <= a <= b && c > 0.0
    ensures 0.0 <= a / c <= b / c
  {
  }

  /** The mapping and its inverse round-trip in both directions. */
  lemma WorldCursorRoundTrip(posX: real, posY: real, worldX: real, worldY: real, width: int, height: int)
    requires width != 0 && height != 0
    ensures CursorX(WorldX(posX, width), width) == posX
    ensures CursorY(WorldY(posY, height), height) == posY
    ensures WorldX(CursorX(worldX, width), width) == worldX
    ensures WorldY(CursorY(worldY, height), height) == worldY
  {
    var w := width as real;
    var h := height as real;
    assert 4.0 * posX / w * w == 4.0 * posX;
    assert -2.0 * posY / h * h == -2.0 * posY;
    assert w != 0.0 && h != 0.0;
    var cx := CursorX(worldX, width);
    assert 4.0 * cx == (worldX + 2.0) * w;
    MulDivCancel(worldX + 2.0, w);
    var cy := CursorY(worldY, height);
    assert -2.0 * cy == -((1.0 - worldY) * h);
    MulDivCancel(1.0 - worldY, h);
  }

  /** The draws one spawned firefly consumes: three velocity components, then its mass. */
  datatype SpawnDraws = SpawnDraws(vx: Draw, vy: Draw, vz: Draw, mass: Draw)

  /** One firefly of a spawn batch, at depth -2. */
  function NewFirefly(worldX: real, worldY: real, d: SpawnDraws): (p: ParticleState)
    ensures p.position == Vec3(worldX, worldY, -2.0) && p.forces == Zero
    ensures 0.7 <= p.mass <= 1.195
    ensures -0.15 <= p.velocity.x <= 0.147 && -0.15 <= p.velocity.y <= 0.147
    ensures -0.15 <= p.velocity.z <= 0.147
  {
    ParticleState(FireflyMass(d.mass), Vec3(worldX, worldY, -2.0), Vec3(Jitter(d.vx), Jitter(d.vy), Jitter(d.vz)), Zero)
  }

  /** The magnet a press places in magnet mode: mass 2, at rest, at a random depth. */
  function NewMagnet(worldX: real, worldY: real, k: Draw): (p: ParticleState)
    ensures p.mass == 2.0 && p.velocity == Zero && p.forces == Zero
    ensures p.position.x == worldX && p.position.y == worldY
    ensures -2.5 <= p.position.z <= -1.51
  {
    ParticleState(2.0, Vec3(worldX, worldY, MagnetDepth(k)), Zero, Zero)
  }

  /** The fireflies one press appends, one per draw record, in order. */
  function FireflyBatch(worldX: real, worldY: real, draws: seq<SpawnDraws>): seq<ParticleState> {
    seq(|draws|, i requires 0 <= i < |draws| => NewFirefly(worldX, worldY, draws[i]))
  }

  /** Every firefly of a batch is at the press point with mass in [0.7, 1.195]. */
  lemma FireflyBatchInRange(worldX: real, worldY: real, draws: seq<SpawnDraws>)
    ensures |FireflyBatch(worldX, worldY, draws)| == |draws|
    ensures PositiveMasses(FireflyBatch(worldX, worldY, draws))
    ensures forall i :: 0 <= i < |draws| ==>
              var p := FireflyBatch(worldX, worldY, draws)[i];
              p.position == Vec3(worldX, worldY, -2.0) && p.forces == Zero && 0.7 <= p.mass <= 1.195
  {
  }

  /** Two presses handled between the same two ticks push a full population
      to 510, past the 500 slots the renderer copies positions into. */
  lemma TwoPressesOverflowLights(s: seq<ParticleState>, b1: seq<ParticleState>, b2: seq<ParticleState>)
    requires |s| >= EvictAbove
    requires |b1| == FirefliesPerClick && |b2| == FirefliesPerClick
    ensures |Evict(s) + b1 + b2| == 510 > NumberOfFireflies
  {
  }
}
