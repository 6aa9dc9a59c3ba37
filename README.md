# Fireflies and magnets: a verified model

This project models the simulation core of an interactive particle toy.
The user spawns "firefly" particles with the mouse. They drift under a random jitter force, an optional gravity force, and an optional pull toward a fixed centre point. User-placed "magnet" particles push nearby fireflies away. Once there are more than 490 fireflies, the oldest are evicted.

The model covers:

- the point mass of `src/classes/Particle.cpp`: its force accumulator and its semi-implicit Euler step;
- the simulation state in the `Application` class of `src/main.cpp`: the two particle lists, the centre point, the three toggles, the per-frame `update`, the key and mouse handlers, the random-float formula, the cursor-to-world mapping, and the copy of firefly positions into the renderer's 500-slot light array;
- the bounding-box scan `Shape::measure` and the buffer copy `Shape::createShape` of `src/classes/Shape.cpp`.

Files, one module each:

- `vectors.dfy` (`Vectors`): `vec3` as a triple of reals.
- `particles.dfy` (`Particles`): the value of a particle, `ParticleState`. The functions `AddForceTo` and `Integrate` say what `addForce` and `update` do to it. The class `Particle` does the same in place, and its methods are proved to agree with those functions.
- `rules.dfy` (`Rules`): the value-level rules of `main.cpp`:
  - `generateRandomFloat`;
  - the force terms of one tick, and one firefly's tick (`StepFirefly`);
  - the whole population's pass (`Tick`) and oldest-first eviction (`Evict`);
  - the cursor-to-world mapping and the spawned particles.
- `simulation.dfy` (`Simulation`): the class `Application` with its fields and handlers. Each handler is proved to produce exactly the state the `Rules` functions describe.
- `shapes.dfy` (`Shapes`): the class `Shape`, the scan's specification (`AxisMin`, `AxisMax`, `BoxMin`, `BoxMax`) and lemmas about the box.

Conventions:

- Each `rand() % 100` is an input `Draw` in [0, 100).
- `glm::length` is a function parameter `length`.
- The magnet radius test is made on the squared length (`SqLen < 1`), which over the reals is the same test as `length < 1`.

## Model

| member | source | states |
|---|---|---|
| Particles.Particle.constructor | src/classes/Particle.cpp:3-8 | mass, position, velocity and forces are stored exactly as given; nothing checks the mass |
| Particles.Particle.AddForce | src/classes/Particle.cpp:14-18 | the argument is added componentwise to `forces`; mass, position and velocity are unchanged |
| Particles.Particle.Update | src/classes/Particle.cpp:20-28 | in-place step equal to `Integrate`: velocity gains `forces/mass·dt`, position gains the new velocity `·dt`, forces become zero, mass unchanged |
| Particles.AddForceCommutes | src/classes/Particle.cpp:14-18 | two `addForce` calls give the same particle in either order and leave mass, position and velocity alone |
| Particles.AddForcesIsSum | src/classes/Particle.cpp:14-18 | any run of `addForce` calls equals one call with the sum of their arguments |
| Particles.IntegrateClearsForces | src/classes/Particle.cpp:20-28 | after any number of `addForce` calls, `update` leaves a zero accumulator and the original mass |
| Particles.IntegrateIsSemiImplicit | src/classes/Particle.cpp:22-25 | `v' = v + (F/m)dt` and `x' = x + v·dt + (F/m)dt²`: the position uses the new velocity, unlike forward Euler |
| Particles.IntegrateFromRest | src/classes/Particle.cpp:20-28 | from rest with force F: velocity `F/m·dt`, position `F/m·dt²` |
| Rules.RandomFloat | src/main.cpp:332-334 | for `lo ≤ hi` the result lies in `[lo, lo + 0.99(hi−lo)]`; for `lo < hi` it never reaches `hi`; draw 0 gives `lo` |
| Rules.RandomFloatDeterminesDraw | src/main.cpp:332-334 | on a non-empty range the returned value determines the `rand() % 100` draw (inverse `DrawOf`) |
| Rules.Jitter | src/main.cpp:357 | a `generateRandomFloat(-0.15, 0.15)` value lies in `[−0.15, 0.147]`, and is zero exactly at draw 50 |
| Rules.FireflyMass | src/main.cpp:130 | a spawned firefly's mass lies in `[0.7, 1.195]` |
| Rules.CenterPull | src/main.cpp:346 | the centre factor lies in `[0.1, 0.2485]` |
| Rules.MagnetDepth | src/main.cpp:134 | a magnet's depth lies in `[−2.5, −1.51]` |
| Rules.JitterForce | src/main.cpp:357 | each component of the per-tick jitter force lies in `[−0.15, 0.147]`; the force is the zero vector exactly when all three draws are 50 |
| Rules.CenterForceAttracts | src/main.cpp:341-347 | the centre force is `(|d|/25)·k·d` with `d = center − position` and `k` in `[0.1, 0.2485]`; for a non-negative length it never points away from the centre |
| Rules.MagnetTermCases | src/main.cpp:351-355 | a magnet strictly within radius 1 adds exactly `position − magnet`; at distance ≥ 1 it adds nothing; at the same position it adds the zero vector |
| Rules.MagnetForceOnlyNear | src/main.cpp:351-355 | the total magnet force equals the force of the magnets within radius 1 alone |
| Rules.MagnetForceOutOfRange | src/main.cpp:351-355 | with no magnet within radius 1 the magnets add the zero vector |
| Rules.StepFireflyIntegratesFirst | src/main.cpp:337-357 | a firefly moves this tick exactly as `update` alone moves it, using only earlier forces; afterwards its accumulator holds exactly this tick's centre, gravity, magnet and jitter terms, computed at the new position |
| Rules.GravityAddsOnlyGravity | src/main.cpp:349 | with gravity on, the tick's forces are those with gravity off plus `(0, −0.25, 0)` |
| Rules.GravityOnlyWhenOn | src/main.cpp:349 | a whole firefly tick with gravity on differs from the same tick with gravity off only by `(0, −0.25, 0)` in the accumulator |
| Rules.IdleFireflyGetsOnlyJitter | src/main.cpp:336-357 | with both toggles off and no magnet in reach, the accumulator after a tick is exactly the jitter vector |
| Rules.TickKeepsMasses | src/main.cpp:336-357 | the physics pass keeps the length of the list and every firefly's mass |
| Rules.Evict | src/main.cpp:359-361 | eviction keeps the newest `min(n, 490)` fireflies: a suffix, in the original order |
| Rules.EvictDropsFront | src/main.cpp:359-361 | while above 490, dropping the front entry does not change the eviction's outcome |
| Rules.EvictIdempotent | src/main.cpp:359-361 | evicting twice is the same as evicting once |
| Rules.EvictLeavesRoomForOneBatch | src/main.cpp:21-22 | after eviction, one batch of 10 fits in the 500 light slots |
| Rules.CursorInWindowMapsToView | src/main.cpp:124-125 | a point inside the window maps into `[−2, 2] × [−1, 1]`, and the top-left corner maps to `(−2, 1)` |
| Rules.WorldCursorRoundTrip | src/main.cpp:124-125 | the cursor-to-world map and its inverse round-trip in both directions |
| Rules.NewFirefly | src/main.cpp:129-130 | a spawned firefly is at `(worldX, worldY, −2)` with zero force, mass in `[0.7, 1.195]` and each velocity component in `[−0.15, 0.147]` |
| Rules.NewMagnet | src/main.cpp:134 | a spawned magnet has mass 2, zero velocity and force, the press point's x and y, and depth in `[−2.5, −1.51]` |
| Rules.FireflyBatchInRange | src/main.cpp:128-131 | every firefly of a batch sits at the press point with zero force and a mass in `[0.7, 1.195]` |
| Rules.TwoPressesOverflowLights | src/main.cpp:475-478 | a full population plus two presses handled before the next tick gives 510 fireflies, more than the 500 light slots |
| Simulation.TwoPressScenario | src/main.cpp:118-131 | `update` on at least 490 fireflies, then two presses handled before the next `update`, leaves exactly 510 fireflies, more than the 500 light slots |
| Simulation.Application.constructor | src/main.cpp:41-65 | empty lists, all toggles off, centre point `(0, 0, −2)` |
| Simulation.Application.Update | src/main.cpp:336-363 | the new firefly list is `Evict(Tick(old list))` and holds at most 490 fireflies; magnets, toggles and the centre are unchanged |
| Simulation.Application.ApplyForces | src/main.cpp:340-357 | the forces added to an integrated firefly are the centre pull if on, then gravity if on, then each magnet within radius 1, then jitter, as `AddTickForces` states |
| Simulation.Application.KeyCallback | src/main.cpp:79-100 | G, M and C each flip only their own toggle, and only on release; TAB empties both lists on any action and leaves the toggles; other keys change nothing |
| Simulation.Application.MouseCallback | src/main.cpp:118-136 | a press appends 10 fireflies at the mapped point, or one magnet in magnet mode, leaving the other list and the toggles unchanged; other actions change nothing |
| Simulation.Application.FillLightsAsWritten | src/main.cpp:475-478 | the copy as written: with at most 500 fireflies, slot `f` holds firefly `f`'s position for every firefly |
| Simulation.Application.FillLights | src/main.cpp:475-478 | the copy bounded by the array: slot `f` holds firefly `f`'s position for every `f < min(n, 500)`, for any population |
| Shapes.AxisMinIsLeast | src/classes/Shape.cpp:23-37 | the running minimum lies below the sentinel and every coordinate seen, and equals the sentinel or one of them |
| Shapes.AxisMaxIsGreatest | src/classes/Shape.cpp:24-37 | the running maximum lies above the sentinel and every coordinate seen, and equals the sentinel or one of them |
| Shapes.BoxContainsEveryVertex | src/classes/Shape.cpp:27-44 | every whole vertex lies inside the measured box on all three axes |
| Shapes.MeasureIgnoresTrailingFloats | src/classes/Shape.cpp:27 | one or two floats after the last whole vertex do not affect the box |
| Shapes.MeasureWithoutVertices | src/classes/Shape.cpp:23-44 | with fewer than 3 floats the box keeps the sentinels `2^31` and `−2^31` and is inverted |
| Shapes.MeasureOneVertex | src/classes/Shape.cpp:29-36 | with one vertex inside the sentinel range, min and max both equal that vertex |
| Shapes.Shape.constructor | src/headers/Shape.h:24-25 | empty buffers and `min = max = vec3(0)` |
| Shapes.Shape.CreateShape | src/classes/Shape.cpp:10-16 | the four buffers are copied verbatim; the box is untouched |
| Shapes.Shape.Measure | src/classes/Shape.cpp:18-45 | the loop stores `BoxMin(posBuf)` and `BoxMax(posBuf)` in `min` and `max` and writes nothing else |

## Findings

| source | as written | input that shows it | evidently intended | confidence | as-written member | corrected member |
|---|---|---|---|---|---|---|
| src/main.cpp:475-478 | the copy writes `lightsArray[f]` for every `f < fireflies.size()` into a 500-slot array. Only eviction in `update` keeps the list short, and it trims to 490 so that exactly one press of 10 fits | `update` leaves 490 fireflies, then two mouse presses are handled by the same event poll (for example, two buttons pressed together). The list reaches 510, and the next frame writes slots 500 to 509 (`Simulation.TwoPressScenario`, `Rules.TwoPressesOverflowLights`) | never write past slot 499. The shader receives only 500 lights anyway | medium, not executed | Simulation.Application.FillLightsAsWritten | Simulation.Application.FillLights |

## Behaviour worth noting

The model follows the code in each of these cases:

- `update` integrates each firefly before adding this tick's forces, at its new position. A force added in one tick therefore first affects motion in the next tick.
- `generateRandomFloat` gives 100 evenly spaced values from `lo` up to `lo + 0.99(hi − lo)` and never reaches `hi`. Jitter and spawn velocities therefore lie in `[−0.15, 0.147]`, and masses in `[0.7, 1.195]`.
- The jitter vector is exactly zero when, and only when, all three of its draws are 50.
- The `Particle` constructor accepts any mass, and `update` accepts any `dt`.

## Left out

- All OpenGL and GLFW work: shader, framebuffer and blur setup, rendering, `Shape::init` and `Shape::draw`, the matrix stack and the uniforms in `drawObjects`, and the window resize callback. It is API sequencing with no state of this model.
- ESC and Z in `keyCallback` act only on the window and on the polygon mode. In the model they change nothing.
- The console output, including the fall-through from the C case into the default message.
- Mesh loading from files (`initializeShapeFromFile`) and the offset averaging that uses `Shape::min` and `max`. This is I/O plus GL setup.
- The `main` loop and `WindowManager`. A frame is render, then `update`, then event polling; the model keeps the operations separate.
- Floating-point rounding and `sqrt`. All arithmetic is on reals.
- `rand()` itself. Draws are inputs. Each firefly gets its own record per tick (centre factor and three jitter components), and each spawned firefly gets one (three velocity components and its mass). The order in which the source consumes one shared `rand()` stream is not modelled. In particular, the source takes a centre draw only while attraction is on.
- `glm::length` is an arbitrary function parameter. Properties that need it non-negative say so in their preconditions.
- Raw pointers, and the particles that `clear()` and `erase` never delete. The lists hold particle values. No particle is shared between the lists.
- Simulation.Application.Update: the source erases the front of `fireflies` inside the range-for over that same vector, which is undefined behaviour. The model makes a full physics pass, then removes from the front while more than 490 remain. That is the intended net effect.
- Particles.Particle.Update: requires a non-zero mass, because real division by zero is undefined. The source's float division would produce infinities instead, or NaN where a force component is zero, as on a freshly built particle, whose forces start at zero and whose first `update` comes before any force is added. Every particle the application creates has mass at least 0.7.
- Simulation.Application.MouseCallback: requires a non-zero framebuffer width and height on a press, for the same reason.
- Simulation.Application.FillLightsAsWritten: the array slots past the copied fireflies are left uninitialised by the source. The model states nothing about them.
- The headers `src/headers/Particle.h` and `src/headers/Shape.h` are declarations only. They supply the field names and the `min`/`max` defaults.
